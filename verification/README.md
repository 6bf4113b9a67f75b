# Storefront core in Dafny

This project models the deterministic core of a React jewellery storefront and
proves properties of the model. The core is:

- the in-memory cart store (`CartContext`);
- the Cart page's pricing, coupon and line handlers;
- the Checkout page's entry guard, shipping rule, CEP (Brazilian postal code)
  normalisation and order/payment handlers;
- the form validators and string transforms:
  - the category slug generator and its auto-slug flag;
  - upload file validation, count checks and the retry schedule;
  - the product modal's image acceptance, removal and field rules;
  - the registration rules;
  - the tracking page's search guard, status icon and address line;
- the route classification, the navigation helpers, the product list filter
  and the product service's query builder and answer checks.

Each core source file has one module. Three helper modules are shared:

- `Wrappers` provides `Option`, `Result` and `Outcome`.
- `Text` provides JavaScript's `\s` class, `trim`, `toLowerCase`, `includes`
  and `startsWith` on `seq<char>`.
- `Keyed` provides the remove-by-key filter `filter(x => x.key !== k)`. The
  cart store, the Cart page and the product modal each apply it to their own
  records.

Modelling conventions:

- Money is `real`.
- A backend call, `JSON.parse` or a clock becomes a parameter. It is either
  the answer the call gave (a `Result`) or a function the caller supplies.
- An exception the source throws is an `Err` value.
- What the UI does with a decision (a toast, a navigation) is part of the
  returned value.

The two shipping rules stay separate on purpose:

- The Cart page ships free strictly above 500 and otherwise charges 29.90.
- The Checkout page ships free from 500 upwards and otherwise charges 25.

`Checkout.ShippingRulesDiffer` states the difference.

The Checkout page is modelled as a session that events drive (`Checkout.Next`,
`Checkout.Run`). Its entry guard is a React effect that depends on the cart's
lines, so it runs on mount and again whenever `clearCart` empties them.
`Checkout.GuardVariant` selects the guard as written or a corrected one that
stays once an order exists. `Checkout.InitFixed` is the corrected start
state. Both corrections belong to the Findings below. The form checks its own
field rules before it calls the submit handler (`Checkout.FormAccepted`), so
a refused form sends no request and leaves the page as it was.

The cart store's `addItem` takes a quantity that defaults to one
(`Cart.DefaultQuantity`).

## Model

| member | source | states |
|---|---|---|
| Cart.Bump | src/contexts/CartContext.tsx:46-50 | every line of the product has its quantity raised by `n`, all other fields and lines unchanged, length kept |
| Cart.AddItem | src/contexts/CartContext.tsx:40-68 | a product already in the cart gets its lines' quantity raised by `n` and no line is added; a new product is appended as exactly one line with quantity `n` and the product snapshot, earlier lines unchanged |
| Cart.AddExistingIsUpdate | src/contexts/CartContext.tsx:42-52 | with distinct product ids, adding a present product replaces exactly one line (the one holding it) by the same line with quantity + `n` |
| Cart.AddTwiceMerges | src/contexts/CartContext.tsx:40-68 | adding a new product twice gives one line at the end, with the first line id and the summed quantity |
| Cart.RemoveItem | src/contexts/CartContext.tsx:73-81 | the result holds exactly the lines of other products, no line of the product is left, and removing an absent product changes nothing |
| Cart.LinesOf | src/contexts/CartContext.tsx:79 | the lines `removeItem` drops: exactly those of the product |
| Cart.RemoveDistributes | src/contexts/CartContext.tsx:79 | removal acts on a concatenation piece by piece, so the kept lines stay in their order |
| Cart.SetQuantity | src/contexts/CartContext.tsx:92-98 | the product's lines get quantity `q`; ids, products, other lines and length are unchanged |
| Cart.UpdateQuantity | src/contexts/CartContext.tsx:86-99 | a positive quantity sets only the matching lines, with length and order kept; a non-positive one leaves no line of the product |
| Cart.UpdateNonPositiveIsRemove | src/contexts/CartContext.tsx:86-90 | an update with `q <= 0` gives the same items as `removeItem` |
| Cart.ClearCart | src/contexts/CartContext.tsx:104-107 | the cart is empty |
| Cart.Total | src/contexts/CartContext.tsx:112-114 | the empty cart totals 0; with `SumsAppend` and `ReplaceLineSums`, each line adds its price (0 for a missing product) times its quantity |
| Cart.ItemCount | src/contexts/CartContext.tsx:119 | the empty cart counts 0, and a cart whose lines all hold at least one unit counts at least one per line |
| Cart.AddDefaultIsOneUnit | src/contexts/CartContext.tsx:40 | `addItem` without a quantity adds exactly one unit to `itemCount` |
| Cart.EmptyCartSums | src/contexts/CartContext.tsx:112-119 | `total` and `itemCount` of a cleared cart are both 0 |
| Cart.SumsAppend | src/contexts/CartContext.tsx:112-119 | `total` and `itemCount` add up over concatenation |
| Cart.RemoveSplitsSums | src/contexts/CartContext.tsx:73-81 | removing a product takes exactly that product's lines out of both `total` and `itemCount` |
| Cart.LinesOfDistinct | src/contexts/CartContext.tsx:42 | with distinct product ids, a product has no line or exactly one |
| Cart.ReplaceLineSums | src/contexts/CartContext.tsx:112-119 | replacing one line changes `total` and `itemCount` by exactly the difference of that line |
| Cart.AddItemCount | src/contexts/CartContext.tsx:40-68 | on a cart with distinct product ids, adding `n` of any product raises `itemCount` by exactly `n` |
| Cart.LineValueBump | src/contexts/CartContext.tsx:113 | a line's contribution to `total` is linear in its quantity; a missing product counts as price 0 |
| Cart.AddNewTotal | src/contexts/CartContext.tsx:53-65 | adding `n` of a new product raises `total` by `n` times its price |
| Cart.AddExistingTotal | src/contexts/CartContext.tsx:42-52 | adding `n` of a present product raises `total` by `n` times the price stored in the existing line, not the new price |
| Cart.DistinctPrefix | src/contexts/CartContext.tsx:40-99 | both parts of a cart with distinct product ids also have distinct ids |
| Cart.AddPreservesDistinct | src/contexts/CartContext.tsx:40-68 | `addItem` keeps product ids distinct |
| Cart.RemovePreservesDistinct | src/contexts/CartContext.tsx:73-81 | `removeItem` keeps product ids distinct |
| Cart.UpdatePreservesDistinct | src/contexts/CartContext.tsx:86-99 | `updateQuantity` keeps product ids distinct |
| Cart.PreservesDistinct | src/contexts/CartContext.tsx:40-107 | any sequence of add, remove, update and clear, started on a cart with distinct product ids, ends with distinct product ids |
| Cart.Scenario | src/contexts/CartContext.tsx:40-119 | adding 2 of a product at 100 totals 200; adding 1 more gives one line of 3 totalling 300; removing it leaves an empty cart totalling 0 |
| CartPage.Shipping | src/pages/Cart/index.tsx:115 | shipping is 0 exactly when the subtotal is strictly above 500, otherwise 29.90 |
| CartPage.LineAmount | src/pages/Cart/index.tsx:114 | a line contributes 0 iff its price or its quantity is 0, and never a negative amount for non-negative inputs |
| CartPage.Subtotal | src/pages/Cart/index.tsx:114 | an empty page sums to 0 and a single line to its own amount; `ReplaceLineSubtotal` gives the effect of changing one line |
| CartPage.Discount | src/pages/Cart/index.tsx:116 | no coupon means no discount; a coupon takes exactly subtotal × its rate, which for a rate in [0, 1] on a non-negative subtotal lies between 0 and the subtotal |
| CartPage.Summarize | src/pages/Cart/index.tsx:114-117 | the summary's subtotal is the line sum, shipping is free iff the subtotal is above 500 and is 29.90 when charged, the discount is `Discount` of the subtotal (subtotal × rate under a coupon, 0 without), and total = subtotal + shipping − discount |
| CartPage.SubtotalNonNegative | src/pages/Cart/index.tsx:114 | non-negative prices and quantities give a non-negative subtotal |
| CartPage.Gold10Total | src/pages/Cart/index.tsx:105-117 | with GOLD10 applied the discount is a tenth of the subtotal and the total is 90% of it plus shipping |
| CartPage.PricingExamples | src/pages/Cart/index.tsx:114-117 | 600 ships free; 100 and exactly 500 pay 29.90; GOLD10 takes 100 off 1000, and a single 1000 line totals 900 |
| CartPage.FreeShippingShortfall | src/pages/Cart/index.tsx:377-383 | the hint is shown iff shipping is charged, and its amount is non-negative and brings the subtotal to exactly 500 |
| CartPage.ApplyCoupon | src/pages/Cart/index.tsx:105-112 | a code is accepted iff it is exactly "GOLD10" (case-sensitive), which applies a 10% percentage coupon; any other code leaves the applied coupon unchanged |
| CartPage.RemoveCoupon | src/pages/Cart/index.tsx:297 | after removal no coupon is applied |
| CartPage.ApplyCouponSummary | src/pages/Cart/index.tsx:105-117 | after applying "GOLD10" the summary takes a tenth of the subtotal off; any other code leaves the summary exactly as it was |
| CartPage.SetQuantity | src/pages/Cart/index.tsx:84-88 | lines with the id get the new quantity; all others are unchanged, length kept |
| CartPage.UpdateQuantity | src/pages/Cart/index.tsx:79-89 | a quantity of exactly 0 takes the remove path for that id; any other value sets the quantity of the lines with that id only, names and prices kept |
| CartPage.ReplaceLineSubtotal | src/pages/Cart/index.tsx:114 | replacing one line changes the subtotal by exactly the difference of the two lines' amounts |
| CartPage.UpdateQuantitySubtotal | src/pages/Cart/index.tsx:79-89 | with unique ids, setting a non-zero quantity on a line changes the subtotal by its price times the change in quantity |
| CartPage.ConfirmRemove | src/pages/Cart/index.tsx:98-101 | the confirmed remove keeps exactly the lines with a different id |
| CartPage.LinesWithId | src/pages/Cart/index.tsx:99 | the lines a confirmed remove drops: exactly those with the id |
| CartPage.ConfirmRemoveDistributes | src/pages/Cart/index.tsx:99 | the confirmed remove acts piece by piece on a concatenation, so the kept lines stay in order |
| CartPage.ConfirmRemoveSubtotal | src/pages/Cart/index.tsx:99-114 | the subtotal drops by exactly the amount of the removed lines |
| Checkout.EntryGuard | src/pages/Checkout.tsx:67-79 | no user means redirect to /login whatever the cart; a user with an empty cart is sent to /; otherwise the page stays (three iffs) |
| Checkout.GuardTarget | src/pages/Checkout.tsx:67-79 | the guard navigates nowhere iff it lets the user stay, to /login without a user, and to / with an empty cart |
| Checkout.CepPattern | src/pages/Checkout.tsx:312 | an accepted CEP is 8 or 9 characters, all digits except for a hyphen, which can only be the sixth |
| Checkout.CepExamples | src/pages/Checkout.tsx:312 | "01310-100" and "01310100" are accepted; a hyphen after four digits and a nine-digit string are refused |
| Checkout.ShippingCost | src/pages/Checkout.tsx:140 | shipping is 0 exactly when the cart total is at least 500, otherwise 25 |
| Checkout.FinalTotal | src/pages/Checkout.tsx:140-141 | the final total is the cart total from 500 up and the cart total + 25 below it |
| Checkout.ShippingRulesDiffer | src/pages/Checkout.tsx:140 | at exactly 500 Checkout ships free while the Cart page charges 29.90; below 500 they charge 25 and 29.90; above 500 both are free |
| Checkout.FinalTotalDropsAtThreshold | src/pages/Checkout.tsx:140-141 | a cart total of 499.99 costs more at checkout than one of 500 |
| Checkout.StripNonDigits | src/pages/Checkout.tsx:99 | the result holds only digits, is no longer than the input, and an all-digit input is kept as it is |
| Checkout.StripDeletes | src/pages/Checkout.tsx:99 | stripping only deletes: every character of the result comes from the input, no more often than it occurs there |
| Checkout.StripAppend | src/pages/Checkout.tsx:99 | stripping non-digits acts piece by piece on a concatenation |
| Checkout.CepNormalised | src/pages/Checkout.tsx:310-313 | every CEP accepted by `^\d{5}-?\d{3}$` is sent as exactly its 8 digits: the first five followed by the last three |
| Checkout.BuildRequest | src/pages/Checkout.tsx:91-105 | the request carries the chosen method, the notes and every address field unchanged except the CEP, which is digits only and 8 long for an accepted CEP |
| Checkout.FinishOrder | src/pages/Checkout.tsx:88-122 | on success the step becomes 2, the order is stored, the cart is cleared, the user and page state are kept and the PIX dialog opens when paying by PIX; on failure the session is unchanged |
| Checkout.ConfirmPayment | src/pages/Checkout.tsx:124-138 | without an order nothing is confirmed or changed; with one, that order is confirmed, and on success the dialog closes and the page moves to /orders/<id>; on failure the session is unchanged |
| Checkout.Init | src/pages/Checkout.tsx:57-61 | the page starts at step 0 with PIX chosen, no order, the dialog closed and nothing navigated, which satisfies the page invariant |
| Checkout.GuardEffect | src/pages/Checkout.tsx:67-79 | the effect changes only where the page has gone; as written it navigates to the entry guard's target whenever it runs on a shown page; the corrected one does nothing once an order exists |
| Checkout.Mount | src/pages/Checkout.tsx:57-79 | the mounted page is shown iff the entry guard says to stay, and otherwise has gone to the guard's target |
| Checkout.Next | src/pages/Checkout.tsx:88-410 | one event on the page: a page already left ignores it; a form that fails the required-field or CEP rules changes nothing; the stored order changes only by an accepted submission answered with that order; at step 2 with the dialog closed, "Ver Detalhes do Pedido" goes to /orders/<id> and "Continuar Comprando" to /; the user is kept, the step never goes back, and the invariant "an order exists exactly at step 2" is kept |
| Checkout.OrderFromAcceptedForm | src/pages/Checkout.tsx:240-313 | from a page without an order, any order present after a sequence of events was created by one of those events: a submission of a form that passed every field rule, answered with that order, whose request carried the CEP as exactly eight digits |
| Checkout.OrderKept | src/pages/Checkout.tsx:88-138 | once the page is at step 2 with an order, no sequence of events changes that order |
| Checkout.Run | src/pages/Checkout.tsx:88-138 | a sequence of events: a page already left stays as it is, the user is kept and the step never goes back |
| Checkout.StuckAtCartReview | src/pages/Checkout.tsx:57-235 | as written, the mounted page is a fixed point of every event sequence: it never leaves step 0, no order is created and the cart is untouched (see Findings) |
| Checkout.RunKeepsInvariant | src/pages/Checkout.tsx:88-138 | every event sequence keeps "an order exists exactly at step 2", and step 2 is never left |
| Checkout.RunKeepsGuard | src/pages/Checkout.tsx:67-79 | after any events the page is never shown without a user, nor with an empty cart unless the corrected guard keeps it for a created order |
| Checkout.MountKeepsGuard | src/pages/Checkout.tsx:67-79 | the mounted page satisfies the guard's promise and the page invariant |
| Checkout.InitFixed | src/pages/Checkout.tsx:57 | the corrected start is step 1 with no order, the cart untouched and nothing navigated, satisfying the page invariant |
| Checkout.MountFixed | src/pages/Checkout.tsx:57-79 | mounted with the corrected start, the page is shown iff the entry guard says to stay |
| Checkout.FixedStartSubmits | src/pages/Checkout.tsx:57-313 | from the corrected start a logged-in user with a non-empty cart sees the form; a submission answered with an order reaches step 2 with the order stored and the cart cleared exactly when the form passes its rules; a failed one changes nothing |
| Checkout.SuccessLeavesPage | src/pages/Checkout.tsx:67-79 | as written, the guard runs again once a successful submission clears the cart and sends the page to "/", after which no event changes anything (see Findings) |
| Checkout.FixedCheckoutCompletes | src/pages/Checkout.tsx:88-138 | with the corrected start and a guard that stays once an order exists, a successful PIX submission keeps the page at step 2 with the dialog open, and a confirmed payment closes it and goes to /orders/<id> |
| CategorySlug.NameRuleBoundaries | src/components/Modal/ModalCategory/index.tsx:147-151 | names of 0, 1 or 101 characters are refused; 2 and 100 characters pass |
| CategorySlug.KeepAllowed | src/components/Modal/ModalCategory/index.tsx:76 | only characters in `[a-z0-9\s-]` remain, and a string of such characters is kept whole |
| CategorySlug.KeepAllowedDeletes | src/components/Modal/ModalCategory/index.tsx:76 | the filter only deletes: every character of the result comes from the input, no more often than it occurs there |
| CategorySlug.KeepAllowedAppend | src/components/Modal/ModalCategory/index.tsx:76 | the filter acts piece by piece on a concatenation |
| CategorySlug.DropRun | src/components/Modal/ModalCategory/index.tsx:77-78 | drops a leading run of the class: the result is a suffix that does not start inside the run |
| CategorySlug.CollapseRuns | src/components/Modal/ModalCategory/index.tsx:77-78 | collapsing runs turns empty into empty and non-empty into non-empty, and keeps a first character outside the class |
| CategorySlug.CollapseRunsChars | src/components/Modal/ModalCategory/index.tsx:77-78 | collapsing runs of slug characters (or whitespace) into hyphens leaves only slug characters |
| CategorySlug.CollapseHyphensNoDouble | src/components/Modal/ModalCategory/index.tsx:78 | after `/-+/g` becomes `-`, no two hyphens are adjacent |
| CategorySlug.TrimHyphens | src/components/Modal/ModalCategory/index.tsx:79 | only characters of the input remain; without doubled hyphens the result has no hyphen at either end; a string without edge hyphens is unchanged |
| CategorySlug.GenerateSlug | src/components/Modal/ModalCategory/index.tsx:71-80 | the slug uses only `[a-z0-9-]`, has no doubled hyphen, no hyphen at either end, satisfies the slug rule `^[a-z0-9-]+$` when non-empty, and a name that already is such a slug is returned unchanged |
| CategorySlug.StagesFixSlug | src/components/Modal/ModalCategory/index.tsx:72-79 | every replacement in the chain leaves a slug unchanged |
| CategorySlug.TwoWordsJoined | src/components/Modal/ModalCategory/index.tsx:71-80 | two words of lower-case letters and digits separated by a space give the two words joined by a hyphen |
| CategorySlug.CollapseSpaceBetween | src/components/Modal/ModalCategory/index.tsx:77 | the space between two words becomes exactly one hyphen and the words are kept |
| CategorySlug.CollapseNoRunPrefix | src/components/Modal/ModalCategory/index.tsx:77-78 | a prefix with no character of the class is copied unchanged in front of the collapse of the rest |
| CategorySlug.CollapseRunsNoRun | src/components/Modal/ModalCategory/index.tsx:77-78 | a string with no character of the class is unchanged by the collapse |
| CategorySlug.CollapseHyphensSingle | src/components/Modal/ModalCategory/index.tsx:78 | a string with no doubled hyphen is unchanged by the hyphen collapse |
| CategorySlug.LowerSlugChars | src/components/Modal/ModalCategory/index.tsx:73 | lower-casing a string of slug characters changes nothing |
| CategorySlug.GenerateSlugIdempotent | src/components/Modal/ModalCategory/index.tsx:71-80 | the slug of a slug is the slug itself |
| CategorySlug.SlugCons | src/components/Modal/ModalCategory/index.tsx:166-172 | a slug character in front of a slug-character string gives a slug-character string |
| CategorySlug.SlugOrRunSuffix | src/components/Modal/ModalCategory/index.tsx:76-78 | every suffix of a string of slug characters and run characters is again such a string |
| CategorySlug.DropRunSkips | src/components/Modal/ModalCategory/index.tsx:77-78 | a run prefix is skipped entirely when dropping the leading run |
| CategorySlug.DropRunStops | src/components/Modal/ModalCategory/index.tsx:77-78 | dropping the leading run stops inside a prefix that is not all run characters |
| CategorySlug.CollapseLeadingRun | src/components/Modal/ModalCategory/index.tsx:77-78 | a leading run of any length becomes one hyphen followed by the collapse of the rest |
| CategorySlug.CollapseHead | src/components/Modal/ModalCategory/index.tsx:77-78 | a first character outside the run class is copied, then the rest is collapsed |
| CategorySlug.CollapseSameHead | src/components/Modal/ModalCategory/index.tsx:77-78 | two tails that collapse alike still collapse alike behind the same non-run character |
| CategorySlug.CollapseRunHead | src/components/Modal/ModalCategory/index.tsx:77-78 | a leading run that ends inside the prefix becomes one hyphen, then the collapse continues after it |
| CategorySlug.CollapseSameRun | src/components/Modal/ModalCategory/index.tsx:77-78 | two tails that collapse alike after a run still collapse alike behind the run |
| CategorySlug.CollapseJoinedRun | src/components/Modal/ModalCategory/index.tsx:77-78 | two adjacent runs collapse as one |
| CategorySlug.CollapseRunAsOne | src/components/Modal/ModalCategory/index.tsx:77-78 | anywhere in a string, a non-empty run can be replaced by a single run character without changing the collapse |
| CategorySlug.CollapseRunAtFront | src/components/Modal/ModalCategory/index.tsx:77-78 | a leading run collapses like a single run character |
| CategorySlug.CollapseRunAfterRun | src/components/Modal/ModalCategory/index.tsx:77-78 | a run that follows a run collapses like a single run character in the same place |
| CategorySlug.AllInRunCons | src/components/Modal/ModalCategory/index.tsx:77 | a run character in front of a run gives a run |
| CategorySlug.LowerSpaces | src/components/Modal/ModalCategory/index.tsx:73-76 | whitespace survives lower-casing and the character filter unchanged |
| CategorySlug.KeepSpaces | src/components/Modal/ModalCategory/index.tsx:76 | whitespace passes the character filter `[^a-z0-9\s-]` untouched |
| CategorySlug.LowerAround | src/components/Modal/ModalCategory/index.tsx:73 | lower-casing acts separately on the text around a whitespace run and keeps the run |
| CategorySlug.KeepAround | src/components/Modal/ModalCategory/index.tsx:76 | the character filter acts separately on the text around a whitespace run and keeps the run |
| CategorySlug.KeptAround | src/components/Modal/ModalCategory/index.tsx:73-76 | lower-casing and then filtering keep a whitespace run in place between the processed text around it |
| CategorySlug.WhitespaceRunIsOneHyphen | src/components/Modal/ModalCategory/index.tsx:77-78 | any non-empty whitespace run in a name gives the same slug as a single space: each run becomes at most one hyphen |
| CategorySlug.ResetForm | src/components/Modal/ModalCategory/index.tsx:54-66 | after a successful submit or a cancel the name and slug are empty and auto-slug is on again |
| CategorySlug.NameChanged | src/components/Modal/ModalCategory/index.tsx:82-89 | a name edit rewrites the slug to the generated slug (which then passes the slug rule if non-empty) only while auto-slug is on and the name is non-empty; otherwise the slug is kept |
| CategorySlug.SlugChanged | src/components/Modal/ModalCategory/index.tsx:91-93 | a slug edit stores the typed slug and turns auto-slug off |
| CategorySlug.Apply | src/components/Modal/ModalCategory/index.tsx:31-93 | a cancel or a successful submit resets the form; a failed submit leaves it as it was; an edit never turns auto-slug on, and a slug edit stores the typed slug with auto-slug off |
| CategorySlug.ManualSlugSticks | src/components/Modal/ModalCategory/index.tsx:31-93 | once auto-slug is off, any number of name edits and failed submits leave the slug and the flag as they were |
| CategorySlug.AutoSlugOnlyTurnsOff | src/components/Modal/ModalCategory/index.tsx:55-93 | without a submit or cancel, auto-slug never comes back on, and any slug edit leaves it off |
| CategorySlug.AutoSlugFollowsName | src/components/Modal/ModalCategory/index.tsx:82-89 | while auto-slug is on, the slug is the generated slug of the last non-empty name, and is a fixed point of the generator |
| Upload.ValidateFile | src/services/uploadService.ts:10-26 | a file passes iff its MIME type is one of the four allowed and its size is in (0, 5 MiB]; the type is checked first, then the maximum size, then emptiness |
| Upload.ValidateFileBoundaries | src/services/uploadService.ts:10-26 | exactly 5 MiB passes, one byte more is too large, a gif is refused for its type even when empty, and an empty jpg is refused as empty |
| Upload.UploadSingle | src/services/uploadService.ts:29-84 | an invalid file fails with its validation error and sends nothing; the upload yields a URL iff the file is valid and the server answered success, and that URL is the server's |
| Upload.FirstInvalid | src/services/uploadService.ts:103-111 | no file is reported iff all files pass; otherwise the reported index is the first file that fails, with its error |
| Upload.UploadMultiple | src/services/uploadService.ts:87-162 | an empty list, then more than `maxFiles` files, are refused before any validation; then the first invalid file is reported with its 1-based position; success iff all checks pass and the server answered success, carrying its URLs and failures |
| Upload.InvalidPositionInRange | src/services/uploadService.ts:103-111 | a reported position is between 1 and the file count, names that file and carries its validation error |
| Upload.UploadProductImages | src/services/uploadService.ts:165-193 | no files gives no URLs without an upload; upload errors pass through; the call fails with "all failed" iff some uploads failed and none succeeded; otherwise the URLs are returned |
| Upload.SixImagesRefused | src/services/uploadService.ts:174-177 | six images are refused with the five-file limit |
| Upload.NothingStoredNothingFailed | src/services/uploadService.ts:179-188 | valid files with no URLs and no failures give an empty URL list, not an error |
| Upload.Backoff | src/services/uploadService.ts:212 | the wait after failed attempt `k` is between 1000 and 5000 ms |
| Upload.BackoffValues | src/services/uploadService.ts:212 | the waits are 1000, 2000 and 4000 ms, then 5000 ms from the fourth attempt on |
| Upload.Pow2Monotone | src/services/uploadService.ts:212 | powers of two grow with the exponent |
| Upload.BackoffMonotone | src/services/uploadService.ts:212 | waits never shrink from one attempt to the next |
| Upload.Schedule | src/services/uploadService.ts:210-213 | the waits between attempts are 1000, 2000 and 4000 ms, then 5000 ms from the fourth on, never shrinking |
| Upload.Attempt | src/services/uploadService.ts:203-208 | one attempt yields a URL iff the file is valid and that attempt's answer is a success, and then it is the server's URL; an invalid file fails with its validation error |
| Upload.UploadWithRetry | src/services/uploadService.ts:196-219 | at most `maxRetries` attempts; success iff some attempt within the budget succeeds, and then it is the first success after failed attempts; the waits follow the schedule with no wait after the last attempt; with no success every attempt is used |
| Upload.InvalidFileFailsEveryAttempt | src/services/uploadService.ts:203-208 | an invalid file fails every attempt with its validation error, so retrying cannot help |
| ProductsFilter.Filter | src/pages/Products/index.tsx:64-68 | every kept product is from the list and matches: its lower-cased name contains the lower-cased term and the category is "all" or equal; every matching product is kept |
| ProductsFilter.FilterIsSubsequence | src/pages/Products/index.tsx:64-68 | the filtered list is an order-preserving subsequence of the products |
| ProductsFilter.FilterCount | src/pages/Products/index.tsx:64-68 | each matching product appears as often as in the listing, duplicates included, and a non-matching one never appears |
| ProductsFilter.FilterIdempotent | src/pages/Products/index.tsx:64-68 | filtering twice gives the same as filtering once |
| ProductsFilter.FilterKeepsAll | src/pages/Products/index.tsx:64-68 | when every product matches, the filter returns the list unchanged |
| ProductsFilter.EmptySearchListsAll | src/pages/Products/index.tsx:65-66 | an empty term with category "all" lists every product |
| ProductsFilter.SearchIgnoresCase | src/pages/Products/index.tsx:65 | lower-casing the search term first lists the same products |
| ProductsFilter.Visible | src/pages/Products/index.tsx:64-68 | the grid shows, in listing order, exactly the products that match the controls |
| ProductsFilter.SortIsIgnored | src/pages/Products/index.tsx:35 | changing the sort selection changes neither what is shown nor its order |
| Routes.RouteTable | src/routes/routes.ts:2-13 | every route is in the table and distinct routes have distinct paths |
| Routes.IsPublicRoute | src/routes/routes.ts:19-22 | public iff the path is exactly "/login" or "/register" |
| Routes.IsProtectedRoute | src/routes/routes.ts:26-28 | protected iff the path is neither "/login" nor "/register" |
| Routes.PublicXorProtected | src/routes/routes.ts:19-28 | every string is public or protected, never both |
| Routes.ProtectedRoutes | src/routes/routes.ts:2-22 | a route's path is protected iff the route is neither LOGIN nor REGISTER |
| Routes.PublicIsExact | src/routes/routes.ts:19-22 | the test is exact string equality: "/login/", "/Login" and "" are protected |
| Routes.TitlesCoverRoutes | src/routes/routes.ts:31-39 | the titles' keys are exactly the route paths, so every route has a title |
| Navigation.Split | src/hooks/useNavigation.ts:55 | `split` gives one more piece than there are separators, and no piece contains the separator |
| Navigation.JoinSplit | src/hooks/useNavigation.ts:55 | joining the pieces of `split` with the separator gives the input back |
| Navigation.SplitJoin | src/hooks/useNavigation.ts:55 | splitting a join of separator-free pieces gives the pieces back |
| Navigation.NoSeparatorSplit | src/hooks/useNavigation.ts:55 | a string without the separator splits into itself alone |
| Navigation.ProductDetailPath | src/hooks/useNavigation.ts:45-47 | the detail path is "/produtos", then a slash, then exactly the id |
| Navigation.OneCurrentRoute | src/hooks/useNavigation.ts:49-51 | two routes current at the same path are the same route, so at most one route is current |
| Navigation.IsCurrentRoute | src/hooks/useNavigation.ts:49-51 | a route is current only when no other route has the current path; `CurrentAtOwnPath` gives the exact-equality test |
| Navigation.CurrentAtOwnPath | src/hooks/useNavigation.ts:49-51 | a route is current at its own path and at no other path: the test is exact string equality |
| Navigation.IsProductDetailRoute | src/hooks/useNavigation.ts:54-56 | true iff the path starts with "/produtos" and holds at least two slashes (split length > 2) |
| Navigation.CountAppend | src/hooks/useNavigation.ts:55 | separator counts add up over concatenation |
| Navigation.NoSeparatorCount | src/hooks/useNavigation.ts:55 | a string without the separator has count 0 |
| Navigation.SlashCount | src/hooks/useNavigation.ts:55 | "/a/b" holds two slashes and "/a" one when the segments hold none |
| Navigation.DetailPathRecognised | src/hooks/useNavigation.ts:45-56 | every path built for a product detail is recognised as one |
| Navigation.DetailPathSlashes | src/hooks/useNavigation.ts:45-55 | a detail path holds at least two slashes, so it splits into more than two pieces |
| Navigation.ListingIsNotDetail | src/hooks/useNavigation.ts:54-56 | "/produtos" itself is not a detail route |
| Navigation.TwoSegmentsRecognised | src/hooks/useNavigation.ts:54-56 | any two-segment path whose first segment starts with "produtos" is recognised |
| Navigation.PrefixWithoutBoundary | src/hooks/useNavigation.ts:55 | with no segment-boundary check, "/produtosx/y" counts as a detail route |
| Navigation.EmptyIdIsDetail | src/hooks/useNavigation.ts:55 | "/produtos/" with an empty id counts as a detail route |
| Navigation.OtherRouteIsNotDetail | src/hooks/useNavigation.ts:55 | "/carrinho/1" is not a detail route |
| ProductModal.BeforeUpload | src/components/Modal/ModalProduct/index.tsx:170-198 | it always returns false, so nothing is uploaded automatically; a type not starting with "image/" is refused for its type; a preview is made iff the file is an image strictly under 2 MiB |
| ProductModal.BeforeUploadBoundaries | src/components/Modal/ModalProduct/index.tsx:177-181 | one byte under 2 MiB is previewed, exactly 2 MiB is refused for size, and a PDF is refused for its type |
| ProductModal.PreviewSmallerFile | src/components/Modal/ModalProduct/index.tsx:170-181 | a smaller file of an accepted type is previewed too |
| ProductModal.ModalStricterThanService | src/components/Modal/ModalProduct/index.tsx:170-181 | an image the modal previews and whose type the upload service allows passes the service's validation; a 3 MiB PNG is refused by the modal yet passes the service |
| ProductModal.AddPreview | src/components/Modal/ModalProduct/index.tsx:183-194 | the preview is appended after the unchanged list, named after the file, with status "done" and the data URL |
| Keyed.Without | src/components/Modal/ModalProduct/index.tsx:205 | the result keeps exactly the entries whose key differs from `k` and is no longer than the input |
| Keyed.With | src/contexts/CartContext.tsx:79 | exactly the entries whose key is `k`: the complement of the removal |
| Keyed.WithoutDistributes | src/pages/Cart/index.tsx:99 | removal acts piece by piece on a concatenation, so the kept entries stay in order |
| Keyed.WithoutAbsent | src/components/Modal/ModalProduct/index.tsx:205 | removing a key no entry has changes nothing |
| Keyed.WithoutIdempotent | src/components/Modal/ModalProduct/index.tsx:205 | removing twice equals removing once |
| ProductModal.HandleRemove | src/components/Modal/ModalProduct/index.tsx:204-206 | the result keeps exactly the entries with a different uid |
| ProductModal.HandleRemoveDistributes | src/components/Modal/ModalProduct/index.tsx:205 | removal acts piece by piece on a concatenation, so the kept entries stay in order |
| ProductModal.HandleRemoveAbsent | src/components/Modal/ModalProduct/index.tsx:205 | removing a uid that is not listed changes nothing |
| ProductModal.HandleRemoveIdempotent | src/components/Modal/ModalProduct/index.tsx:205 | removing twice equals removing once |
| ProductModal.RemoveUndoesPreview | src/components/Modal/ModalProduct/index.tsx:183-206 | removing a freshly added preview by its new uid restores the list |
| ProductModal.RemoveReopensUpload | src/components/Modal/ModalProduct/index.tsx:415-418 | a list of five images hides the upload button, and removing a listed image shows it again |
| ProductModal.PreviewFillsUpload | src/components/Modal/ModalProduct/index.tsx:183-194 | adding a preview while the upload button shows hides it exactly when the list reaches five images |
| ProductModal.HandleCategorySuccess | src/components/Modal/ModalProduct/index.tsx:136-143 | the new category is prepended to the unchanged list and selected, and the category modal closes |
| ProductModal.NameRule | src/components/Modal/ModalProduct/index.tsx:250-253 | an accepted name is non-empty |
| ProductModal.NameRuleExtends | src/components/Modal/ModalProduct/index.tsx:250-253 | lengthening an accepted name keeps it accepted |
| ProductModal.SkuRule | src/components/Modal/ModalProduct/index.tsx:263-269 | an accepted SKU is non-empty ASCII without whitespace |
| ProductModal.SkuRuleClosed | src/components/Modal/ModalProduct/index.tsx:263-269 | accepted SKUs stay accepted when concatenated, and every non-empty slice of one is accepted |
| ProductModal.PriceRule | src/components/Modal/ModalProduct/index.tsx:329-332 | an accepted price is present and strictly positive |
| ProductModal.PriceRuleMonotone | src/components/Modal/ModalProduct/index.tsx:329-332 | a price at least an accepted one is accepted too |
| ProductModal.FieldRuleBoundaries | src/components/Modal/ModalProduct/index.tsx:250-332 | names need three characters; a price passes from 0.01 up, and 0, 0.009 and an empty field fail |
| ProductModal.SkuExamples | src/components/Modal/ModalProduct/index.tsx:263-269 | joining valid SKUs with '-' or '_' gives a valid SKU; a space, a dot or an accented letter makes it invalid |
| Tracking.HandleSearch | src/pages/Tracking/index.tsx:49-67 | nothing is looked up iff the code is all whitespace, which only warns and leaves the page as it was; otherwise the trimmed code is looked up, the page is marked searched, and the answer is stored, or the stored one is cleared with an error message |
| Tracking.FailedSearchShowsNotFound | src/pages/Tracking/index.tsx:55-63 | a failed lookup always ends on the not-found panel; a blank code never changes whether it is shown |
| Tracking.TrimStartSkipsSpace | src/pages/Tracking/index.tsx:50 | leading whitespace disappears under trimming |
| Tracking.LeadingSpaceIgnored | src/pages/Tracking/index.tsx:49-67 | extra leading whitespace in the code changes neither what is looked up nor what is stored |
| Tracking.SameTrimSameSearch | src/pages/Tracking/index.tsx:50-63 | two codes that trim alike send the same query and store the same answer |
| Tracking.StatusIcon | src/pages/Tracking/index.tsx:69-83 | on the lower-cased status: clock iff confirmado/preparação occurs; truck iff not and enviado/trânsito occurs; check iff neither and entrega/entregue occurs; pin otherwise |
| Tracking.StatusIconIgnoresCase | src/pages/Tracking/index.tsx:70 | lower-casing the status first gives the same icon |
| Tracking.StatusPriority | src/pages/Tracking/index.tsx:72-79 | a status with both "enviado" and "entrega" shows the truck unless it also has a confirmed keyword: earlier groups win |
| Tracking.UpperCaseKeyword | src/pages/Tracking/index.tsx:70-73 | "PREPARAÇÃO" anywhere in the status shows the clock |
| Tracking.Render | src/pages/Tracking/index.tsx:105 | the line is the street-and-number head, then ", complement" only when the complement is non-empty, then the tail |
| Tracking.ComplementSegment | src/pages/Tracking/index.tsx:105 | the line starts with "street, number"; the complement adds exactly ", complement" right after it and nothing else |
| Tracking.FormatAddress | src/pages/Tracking/index.tsx:96-106 | a string the parser rejects is returned unchanged; a parsed string and an address object are both rendered by the template |
| Tracking.TextFormMatchesObject | src/pages/Tracking/index.tsx:96-106 | a stored address text that parses to an address renders the same line as that address object |
| Tracking.RenderEnds | src/pages/Tracking/index.tsx:105 | the line starts with "street, number" and ends with " - CEP: " and the zip code |
| Register.FieldRuleBoundaries | src/pages/RegisterUser/index.tsx:78-81 | a one-character name fails and two pass; a five-character password fails and six pass |
| Register.ConfirmValidator | src/pages/RegisterUser/index.tsx:162-172 | the validator passes iff the value is empty or equals the password, and fails with the mismatch message |
| Register.ConfirmRuleIff | src/pages/RegisterUser/index.tsx:162-172 | with `required`, the confirmation is accepted iff it equals a non-empty password |
| Register.MakePhoneMatches | src/pages/RegisterUser/index.tsx:124-129 | a number built from a two-digit area code, one whitespace, four or five digits, a hyphen and four digits matches the pattern, and the parts read back |
| Register.PhonePatternParts | src/pages/RegisterUser/index.tsx:128 | every string the pattern accepts is built from such parts |
| Register.PhonePattern | src/pages/RegisterUser/index.tsx:128 | an accepted phone has at least 14 characters, opens with "(", ends with a digit, and holds only digits, parentheses, hyphens and whitespace |
| Register.PhoneExamples | src/pages/RegisterUser/index.tsx:124-129 | the two placeholder shapes pass; an absent or empty phone passes; one without parentheses fails |
| Register.ToRegisterData | src/pages/RegisterUser/index.tsx:22-25 | every field but the confirmation is passed on unchanged |
| Register.ConfirmationRoundTrip | src/pages/RegisterUser/index.tsx:22-25 | stripping the confirmation undoes adding it, and a valid form sends a password of at least six characters equal to its confirmation |
| Register.FormValid | src/pages/RegisterUser/index.tsx:78-172 | a valid form has names of at least two characters, a non-empty e-mail, a password of at least six characters and a confirmation equal to it |
| ProductService.DigitChar | src/services/productService.ts:14-15 | a digit value maps to a digit character |
| ProductService.NatToString | src/services/productService.ts:14-15 | `toString` of a natural number is non-empty digits with no leading zero |
| ProductService.IntToString | src/services/productService.ts:14-15 | `toString` of an integer is non-empty: digits, with a leading '-' for a negative number |
| ProductService.ParseNatToString | src/services/productService.ts:14-15 | reading back the digits of a natural number gives the number |
| ProductService.IntToStringRoundTrip | src/services/productService.ts:14-15 | reading back `toString` of any integer gives the integer |
| ProductService.AppendedOrdered | src/services/productService.ts:12-18 | the appended pairs follow the slots' key order |
| ProductService.AppendedGet | src/services/productService.ts:12-18 | a key's value in the query is the value its slot decided, or absent |
| ProductService.AbsentAfter | src/services/productService.ts:12-18 | a key ranked before every slot does not occur |
| ProductService.GetAbsent | src/services/productService.ts:12-18 | a key ranked before every pair does not occur |
| ProductService.DecidedAt | src/services/productService.ts:14-18 | the first slot of a key decides it: its value when that slot is on, otherwise absent |
| ProductService.ListingPageLimit | src/services/productService.ts:14-15 | `page` and `limit` are in the query, stringified, exactly when they are truthy |
| ProductService.ListingOthers | src/services/productService.ts:16-18 | `category` and `search` are in the query exactly when non-empty, and `featured` is "true" exactly when it is true |
| ProductService.AppendedBelow | src/services/productService.ts:12-18 | appending never introduces a key ranked outside the slots' range |
| ProductService.ListingQuery | src/services/productService.ts:12-18 | keys appear in the fixed order page, limit, category, featured, search; each is present only when truthy (page 0, limit 0, an empty string or `featured` false is omitted) with its stringified value; featured is "true" |
| ProductService.FalsyFieldsOmitted | src/services/productService.ts:14-18 | zeroes, empty strings, a false or absent `featured` and absent fields all give an empty query |
| ProductService.ListingExample | src/services/productService.ts:14-18 | page 2, limit 8, category "aneis", featured true and no search give exactly those four pairs in order |
| ProductService.EncodeExample | src/services/productService.ts:21 | three pairs are written as "page=2&limit=8&featured=true" |
| ProductService.Encode | src/services/productService.ts:21 | the written query is empty iff there are no pairs |
| ProductService.EncodeIsJoin | src/services/productService.ts:21 | a non-empty query is written as its "key=value" pieces joined with '&' |
| ProductService.ReadPairRoundTrip | src/services/productService.ts:21 | a "key=value" piece whose key has no '=' reads back as that key and the whole value |
| ProductService.SplitEncode | src/services/productService.ts:21 | splitting the query text on '&' gives back its pieces when no key or value holds '&' |
| ProductService.EncodeDecode | src/services/productService.ts:21 | keys free of '&' and '=' and values free of '&' survive writing the query and reading it back, in order |
| ProductService.FeaturedQuery | src/services/productService.ts:42 | the query is empty iff the limit is falsy, and otherwise starts with "?limit=" followed by something |
| ProductService.FeaturedQueryRoundTrip | src/services/productService.ts:42 | the limit can be read back from what follows "?limit=" |
| ProductService.CheckListing | src/services/productService.ts:23-27 | the listing is returned iff `success` holds; otherwise the error is the answer's error or the default message, never empty |
| ProductService.CheckData | src/services/productService.ts:34-38 | the data is returned iff `success` holds and data is present; otherwise the error is the answer's error or the call's default message |
| ProductService.MissingDataDiffers | src/services/productService.ts:23-38 | a successful answer without data is accepted by the listing check but refused by the product check |
| Text.LowerChar | src/pages/Products/index.tsx:65 | `toLowerCase` of one character: an ASCII capital becomes its own small letter, a Latin-1 capital U+00C0–U+00DE other than U+00D7 becomes the letter 32 code points above it, every other character is kept, and ASCII-ness, whitespace and digits are preserved |
| Text.LowerCharIdempotent | src/pages/Products/index.tsx:65 | lower-casing a character twice equals doing it once |
| Text.Lower | src/pages/Products/index.tsx:65 | lower-casing keeps the length, turns every ASCII capital into its own small letter, keeps every other ASCII character, and keeps whitespace and digits in place; `LowerIdempotent` and `LowerAppend` relate it to itself |
| Text.LowerAppend | src/pages/Products/index.tsx:65 | lower-casing acts piece by piece on a concatenation |
| Text.LowerIdempotent | src/pages/Products/index.tsx:65 | lower-casing a string twice equals doing it once |
| Text.LowerExample | src/pages/Products/index.tsx:65 | "ANEL" lower-cases to "anel" |
| Text.IncludesAt | src/pages/Products/index.tsx:65 | a substring occurring at some position is included |
| Text.IncludesWitness | src/pages/Products/index.tsx:65 | an included substring occurs at some position |
| Text.IncludesEmpty | src/pages/Products/index.tsx:65 | the empty string is included in every string, so an empty search matches every name |
| Text.TrimStart | src/pages/Tracking/index.tsx:50 | the result is a suffix, everything dropped is whitespace, and it does not start with whitespace |
| Text.TrimEnd | src/pages/Tracking/index.tsx:50 | the result is a prefix, everything dropped is whitespace, and it does not end with whitespace |
| Text.Trim | src/pages/Tracking/index.tsx:50 | the result is the input with a whitespace-only prefix and suffix removed, and when non-empty it starts and ends with non-whitespace; `TrimEmptyIff` says when it is empty |
| Text.TrimEmptyIff | src/pages/Tracking/index.tsx:50 | a string trims to empty iff it is all whitespace |

## Left out

- Persistence of the cart and session in `localStorage` and the JSON parsing of
  stored carts: the model's state is the in-memory sequence.
- Toasts, `Modal.confirm` dialogs, loading flags, `setTimeout` sleeps and
  navigation side effects. Decisions and delay values are modelled; timing is
  not.
- `Date.now`-based temporary ids, UIDs and timestamps: these are parameters
  (`lineId`, `uid`). `updated_at`/`created_at` are not stored.
- IEEE floating-point rounding of prices: money is `real`.
- Cart.AddItem: the catalogue declares the price as a string, which JavaScript
  coerces under `*`. The model takes the price as a number.
- CategorySlug.GenerateSlug: Unicode NFD decomposition and accent stripping
  are not modelled. A letter such as "é" is dropped by the character filter
  instead of becoming "e", so the model is exact only on input without
  accented letters.
- Text.LowerChar: `toLowerCase` is modelled for ASCII and the Latin-1
  capitals U+00C0–U+00DE (except U+00D7). Other characters are left as they
  are.
- The registration form's e-mail format rule is not modelled. Only
  non-emptiness of the e-mail enters `FormValid`.
- ProductService.ListingQuery: the percent-encoding of `URLSearchParams` is
  not modelled. The query is an ordered list of key/value pairs, and `Encode`
  joins them without escaping.
- Non-integer page and limit numbers are not modelled: they are integers, so
  `toString` of a fraction is out of scope.
- ProductService.IntToString: JavaScript's `toString` switches to exponent
  notation from 1e21 on and a number is exact only below 2^53. The model
  writes every integer in full decimal.
- Upload.UploadWithRetry: a `maxRetries` below 1 makes no attempt and
  returns `Err(None)`. In the source this is the throw of an unassigned
  `lastError`.
- Upload: upload progress percentages, `FormData` construction, the
  `folder` option and `FileReader` previews are not modelled. The network
  answer is a parameter.
- Upload.UploadProductImages: the `failed` list is modelled as always
  present. The source omits it when it is empty, which makes no difference
  to the decision.
- ProductModal: the `maxCount` trimming done by the upload component itself,
  and `handleUploadChange`, are component internals and are left out.
- Tracking.FormatAddress: `JSON.parse` is a parameter. A parsed value that
  is not an address object is not modelled, and a missing complement is the
  empty string (both are falsy).
- Navigation.ProductDetailPath: `goToProductDetail` takes a `string | number`
  id. The model takes a string; a numeric id, which the template literal
  turns into its decimal text, is not modelled.
- CategorySlug.Apply: `createCategory`, which the category modal imports, is
  not exported by `categoryService.ts`. What a build does with the missing
  export depends on the toolchain and is not modelled. The model keeps both
  submit outcomes: a success resets the form and a failure keeps it.
- Checkout.Next: the submitted form values are a parameter. The form's
  initial state value "SP" and the state input's two-character limit are
  not modelled. A required text field is modelled as refusing only the empty
  value; without a whitespace option the form accepts a value of spaces, and
  so does the model.
- Presentational pages and components, currency and date formatting, HTTP and
  auth plumbing (axios interceptors, other services), mock data arrays and
  pagination are outside the core.

## Findings

| source | as written | input that shows it | evidently intended | confidence | as-written member | corrected member |
|---|---|---|---|---|---|---|
| src/pages/Checkout.tsx:57 | the step starts at 0 and no handler ever sets it to 1, but the address and payment form only renders at step 1 (line 235), so an order can never be submitted | any session: a logged-in user with a non-empty cart opens the page, and every sequence of events leaves step 0 with no order | the page reaches step 1 once the entry guard lets the user stay, so the form is shown and a successful submission reaches step 2 | not executed | Checkout.StuckAtCartReview | Checkout.FixedStartSubmits |
| src/pages/Checkout.tsx:67-79 | the entry guard depends on `items`, so it runs again when a successful submission calls `clearCart` (line 115); the cart is then empty and the page navigates to "/", taking the PIX dialog and its confirm button with it | a logged-in user with a non-empty cart who submits the form (once it is reachable) with a successful answer and PIX chosen ends on "/" with the order never confirmed | once an order has been created the guard no longer redirects, so the page stays at step 2 with the dialog open and the payment can be confirmed | not executed | Checkout.SuccessLeavesPage | Checkout.FixedCheckoutCompletes |
