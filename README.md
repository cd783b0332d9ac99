# The MOS storefront core in Dafny

This project models three pieces of the MOS merchandise storefront's
client-side logic, and proves properties of each.

- **The cart store** (`public/cart.js`). The cart is one array of lines, each
  with an id, name, price, image, size and quantity. It is copied to the
  browser's storage under `mos_cart` and counted on the cart icon. The
  operations that change it are adding a product, removing a line, setting a
  quantity and clearing. The store also checks the five checkout fields. It
  decides whether an order is sent and whether the cart is then emptied.
  - `CartLines` (`cart_lines.dfy`) holds the lines as values: lookup, total,
    count, and the change each operation makes. Its lemmas cover the
    invariant "one line per (id, size), every quantity at least 1".
  - `CheckoutForm` (`checkout_form.dfy`) holds the five field rules. The
    regular expressions are written out as predicates on characters. A
    method collects the error list the way the source pushes it.
  - `CartStore` (`cart_store.dfy`) holds the class `Cart`. Its fields are
    `lines`, the storage slot and the icon badge; its methods are the
    source's mutating functions. The network reply, the clock and the
    `confirm()` answer are parameters.
- **The catalog filter** (`public/catalogfilter.js`), in `CatalogFilter`
  (`catalog_filter.dfy`). The product cards are collected once and
  classified by the keyword rules. They are then filtered by main category
  and subcategory, sorted by price or put back in page order, and shown a
  page of 12 at a time. The class `CatalogFilter` keeps the source's state
  fields. It also keeps the cards' display styles, the product count and
  whether the load-more button is shown. The constructor, `Init` and every
  method after it re-establish "the page shows the current state"
  (`Rendered`). `CollectProducts` only appends the collected products; `Init`
  renders them afterwards.
- **The countdown** (`public/timer.js`), in `Countdown` (`countdown.dfy`). The
  time left is split into days, hours, minutes and seconds with JavaScript's
  `Math.floor` and `%`. Each part is shown zero-padded to two digits. Once the
  moment has passed, the banner shows the finished text instead.

`Decimal` (`decimal.dfy`) has the decimal text of numbers: `String(n)`,
`padStart(2, '0')`, `slice(-8)` and `replace(/\D/g, '')`. `Nullable`
(`nullable.dfy`) has the `Option` type, which stands for missing
attributes and `undefined` values, and for `null` only where a field's
comment says so.

Some behaviours of the code that the model keeps as written:
- `loadCart` does not catch `JSON.parse`: a stored cart that is not JSON
  throws (`CartStore.LoadCart`).
- `parseInt(price) || 0` keeps a negative price, so the total can be
  negative; `CartLines.TotalNonNegative` requires non-negative prices.
- The cart is emptied only when the reply's body parsed as JSON and the
  status was ok. On an ok status with a body that is not JSON,
  `response.json()` throws before the cart is touched
  (`CartStore.OkButNotJsonKeepsCart`).
- Clicking a subcategory whose main category is unknown sets the main
  category to `null`, so every product is listed
  (`CatalogFilter.UnknownSubShowsAll`).

## Model

| member | source | states |
|---|---|---|
| Nullable.Option.GetOr | public/cart.js:86-87 | definition: `x \|\| d` for a value that is never falsy when present: the value, or d when absent |
| Decimal.DigitsOnly | public/cart.js:159 | `replace(/\D/g, '')` gives only digits and never grows the text; `DigitsOnlyChar` and `DigitsOnlyAppend` fix its value: the digits of s, in order |
| Decimal.DigitsOnlyChar | public/cart.js:159 | one character is kept exactly when it is a digit |
| Decimal.DigitsOnlyAppend | public/cart.js:159 | the digits of a + b are the digits of a followed by the digits of b |
| Decimal.DigitsOnlyEmpty | public/catalogfilter.js:61 | the digits-only text is empty exactly when the text has no digit |
| Decimal.DigitsValue | public/catalogfilter.js:60-61 | definition: the number a digit string denotes, as `parseInt` reads it, leading zeros allowed |
| Decimal.DecimalString | public/cart.js:37 | `String(n)` of a natural number is a non-empty digit string with no leading zero |
| Decimal.DecimalStringValue | public/timer.js:21-24 | reading `String(n)` back as a number gives n |
| Decimal.DecimalStringLength | public/timer.js:21-24 | `String(n)` has one digit below 10, two for 10..99 and at least three from 100 |
| Decimal.DecimalStringAtLeast | public/cart.js:208 | a number of at least 10^(k-1) has at least k digits |
| Decimal.PadStart2 | public/timer.js:21 | `padStart(2, '0')` gives length max(2, \|s\|), keeps s as a suffix and puts only zeros in front |
| Decimal.PadStart2Value | public/timer.js:21-24 | the padded decimal text of n is all digits, reads back as n, and is exactly two characters when n < 100 |
| Decimal.Last | public/cart.js:208 | for k >= 1, `slice(-k)` is the last min(k, \|s\|) characters of s |
| Decimal.LastDigitsValue | public/cart.js:208 | the last k digits of `String(n)` read back as n mod 10^k |
| Countdown.FloorDiv | public/timer.js:16-19 | `Math.floor(a / b)` is the q with q·b <= a < q·b + b |
| Countdown.JsRem | public/timer.js:17-19 | JavaScript's `%` leaves a remainder with the dividend's sign, below the divisor in size |
| Countdown.Split | public/timer.js:16-19 | for a non-negative distance the hours are 0..23 and the minutes and seconds 0..59, and the parts recompose the distance rounded down to a second |
| Countdown.TwoDigits | public/timer.js:21-24 | each shown part is a digit string of length at least 2 that reads back as the part, of length exactly 2 below 100 |
| Countdown.Tick | public/timer.js:7-24 | the banner stops with the finished text exactly when the distance is negative; otherwise hours, minutes and seconds show two characters each and days at least two |
| Countdown.TickReadsBack | public/timer.js:16-24 | reading a running banner's four fields back as numbers recomposes the time left, rounded down to a whole second |
| CartLines.Matches | public/cart.js:99-101 | definition: the `findIndex` and `find` test: the line's id and size are the ones asked for |
| CartLines.FindIndex | public/cart.js:99-101 | the index of the first line with the (id, size), or -1 exactly when no line has it |
| CartLines.FindInCart | public/cart.js:23-27 | `findInCart` gives the first line with the (id, size), or nothing exactly when no line has it |
| CartLines.SizeOrDefault | public/cart.js:75 | definition: a size that is left out becomes the default size |
| CartLines.NewLine | public/cart.js:82-89 | definition: the new line has the product's id and name, `parseInt(price) \|\| 0`, `image \|\| ''`, the size or the default, and quantity 1 |
| CartLines.TotalPrice | public/cart.js:142-146 | definition: the sum of price·quantity over the lines, left to right |
| CartLines.Subtotal | public/cart.js:144 | definition: one line's `item.price * item.quantity` |
| CartLines.ItemCount | public/cart.js:34 | definition: the sum of the lines' quantities, shown on the badge |
| CartLines.WellFormed | public/cart.js:74-127 | definition: at most one line per (id, size), and every quantity at least 1 |
| CartLines.AddedTo | public/cart.js:74-90 | definition: the first line for the product's (id, size) gets one more, or the new line is appended |
| CartLines.Removed | public/cart.js:98-104 | definition: the first line for the pair spliced out, or the lines unchanged |
| CartLines.WithQuantity | public/cart.js:113-123 | definition: a missing pair changes nothing; below 1 the line is removed; otherwise its quantity becomes the new one |
| CartLines.TotalAppend | public/cart.js:142-146 | the total and the count of two line lists put together are the sums of their totals and counts |
| CartLines.TotalReplace | public/cart.js:142-146 | replacing one line changes the total and the count by that line alone |
| CartLines.TotalSplice | public/cart.js:142-146 | splicing out one line takes its price·quantity off the total and its quantity off the count |
| CartLines.TotalNonNegative | public/cart.js:142-146 | the total and the count are 0 on an empty cart, and never negative when no price and no quantity is |
| CartLines.CountAtLeastLines | public/cart.js:584 | with quantities of at least 1 the count is at least the number of lines, and 0 exactly for the empty cart |
| CartLines.UniqueFind | public/cart.js:23-27 | with one line per (id, size), the lookup finds the line that has the pair |
| CartLines.AddIncrementsExisting | public/cart.js:77-80 | adding a product already in the cart adds no line, raises that line's quantity by exactly 1 and leaves every other line as it was |
| CartLines.AddAppendsNew | public/cart.js:82-89 | adding a new (id, size) keeps the earlier lines and appends exactly one line with `parseInt(price) \|\| 0`, `image \|\| ''` and quantity 1 |
| CartLines.AddCountsOne | public/cart.js:74-95 | adding raises the count by 1 and the total by the matched line's price, or by the new line's price |
| CartLines.AddKeepsOtherPairs | public/cart.js:74-90 | adding a product leaves the quantity of every other (id, size) unchanged |
| CartLines.AddPreservesWellFormed | public/cart.js:74-95 | adding keeps one line per (id, size) and every quantity at least 1 |
| CartLines.RepeatedAddsCount | public/cart.js:74-95 | adding the same product n times to an empty cart gives one line of quantity n |
| CartLines.RemoveDeletesLine | public/cart.js:98-110 | removing deletes exactly the found line and keeps the others in order, with the total and the count reduced by that line; an absent pair changes nothing |
| CartLines.RemoveLeavesNone | public/cart.js:98-104 | after removing from a cart with one line per pair, no line has the pair |
| CartLines.RemovePreservesWellFormed | public/cart.js:98-104 | removing keeps one line per (id, size) and every quantity at least 1 |
| CartLines.SetBelowOneRemoves | public/cart.js:113-118 | a new quantity below 1 does exactly what removing the line does |
| CartLines.SetQuantityOnly | public/cart.js:113-127 | a new quantity of at least 1 becomes that line's quantity and changes no other line; a missing line changes nothing |
| CartLines.SetPreservesWellFormed | public/cart.js:113-127 | setting a quantity keeps one line per (id, size) and every quantity at least 1 |
| CartLines.HoodieTwice | public/cart.js:74-95 | adding the same 2000-priced hoodie twice gives one line of quantity 2 and a total of 4000 |
| CheckoutForm.IsSpace | public/cart.js:153 | definition: the characters of JavaScript's `\s`, which `trim` also strips: tab to carriage return, space, U+00A0, U+1680, U+2000 to U+200A, U+2028, U+2029, U+202F, U+205F, U+3000 and U+FEFF |
| CheckoutForm.TrimStart | public/cart.js:153 | `trimStart` drops exactly the leading whitespace |
| CheckoutForm.TrimEnd | public/cart.js:153 | `trimEnd` drops exactly the trailing whitespace |
| CheckoutForm.Trim | public/cart.js:153 | definition: `trim()` is `trimEnd` after `trimStart` |
| CheckoutForm.SplitLength | public/cart.js:153 | definition: `split(/\s+/).length` is one more than the number of maximal whitespace runs |
| CheckoutForm.NameOk | public/cart.js:153 | definition: the name is non-empty and splits into at least three pieces once trimmed |
| CheckoutForm.TrimKeepsWords | public/cart.js:153 | trimming does not change the number of words |
| CheckoutForm.NameOkIffThreeWords | public/cart.js:153 | the name rule (`trim().split(/\s+/).length >= 3`) holds exactly when the name has at least three words |
| CheckoutForm.SingleWordNameFails | public/cart.js:153 | a name without whitespace fails the name rule |
| CheckoutForm.PhonePattern | public/cart.js:158 | definition: the phone pattern, read piece by piece: "+7", optional space, optional '(', three digits, optional ')', optional space, three digits, optional separator, two digits, optional separator, two digits, end |
| CheckoutForm.PhoneOk | public/cart.js:158-160 | definition: the phone is non-empty, has 11 digits, and matches the pattern |
| CheckoutForm.PhonePatternHasElevenDigits | public/cart.js:158 | every phone the pattern accepts has exactly 11 digits |
| CheckoutForm.PhoneOkIffPattern | public/cart.js:158-160 | the phone rule holds exactly when the pattern matches: the presence and 11-digit checks reject nothing the pattern accepts |
| CheckoutForm.PhoneShortFails | public/cart.js:158-161 | the phone "123" fails the phone rule |
| CheckoutForm.ZipShortFails | public/cart.js:165-166 | the index "12" fails the six-digit rule |
| CheckoutForm.ZipOk | public/cart.js:165-166 | definition: the index is non-empty and exactly six digits |
| CheckoutForm.AddressOk | public/cart.js:171 | definition: the address is non-empty and at least ten UTF-16 code units long once trimmed |
| CheckoutForm.CodeUnits | public/cart.js:171 | `length` counts UTF-16 code units: between \|s\| and 2·\|s\|, exactly \|s\| without characters beyond U+FFFF and 2·\|s\| when every character is beyond it; `CodeUnitsChar` and `CodeUnitsAppend` give the count of every string |
| CheckoutForm.CodeUnitsChar | public/cart.js:171 | one character is two code units beyond U+FFFF and one otherwise |
| CheckoutForm.CodeUnitsAppend | public/cart.js:171 | the length of a + b is the length of a plus the length of b |
| CheckoutForm.AddressShortFails | public/cart.js:171 | the address "short" fails the ten-character rule |
| CheckoutForm.AstralAddressPasses | public/cart.js:171 | five characters beyond U+FFFF are ten code units, so that address passes the ten-character rule |
| CheckoutForm.Plain | public/cart.js:176 | definition: a character of `[^\s@]`, neither whitespace nor '@' |
| CheckoutForm.EmailPattern | public/cart.js:176 | definition: the e-mail pattern: plain characters, '@', plain characters around a '.' that is neither first nor last |
| CheckoutForm.EmailOk | public/cart.js:176-177 | definition: the e-mail is non-empty and matches the pattern |
| CheckoutForm.EmailShape | public/cart.js:176 | an address the e-mail pattern accepts has no whitespace and exactly one '@', with something before it and a '.' after it |
| CheckoutForm.EmailBadFails | public/cart.js:176-177 | the e-mail "bad" fails the e-mail rule |
| CheckoutForm.ErrorIf | public/cart.js:152-179 | definition: one `if (…) errors.push(message)` step: the message when the rule failed, else nothing |
| CheckoutForm.ErrorsFor | public/cart.js:150-179 | definition: the five steps in order: name, phone, index, address, e-mail |
| CheckoutForm.CollectErrors | public/cart.js:150-179 | the successive pushes give the failed rules' messages in the order the rules are checked |
| CheckoutForm.FormErrors | public/cart.js:149-179 | definition: the messages of the failed rules, in the order name, phone, index, address, e-mail |
| CheckoutForm.AllRulesHold | public/cart.js:192 | definition: all five rules hold, which is when `validateFormData` returns true |
| CheckoutForm.ValidateFormData | public/cart.js:149-187 | every rule is checked, the errors are all failed rules' messages in order, and the form is valid exactly when there are none |
| CheckoutForm.ErrorsPerRule | public/cart.js:150-179 | each message is in the list exactly when its rule failed, the list has one message per failed rule, and it is empty exactly when all rules hold |
| CheckoutForm.FormErrorsPerRule | public/cart.js:149-187 | a form has one message per failed rule, and none exactly when all five rules hold |
| CartStore.LoadCart | public/cart.js:11-14 | a missing snapshot loads the empty cart, a saved one loads its lines, and non-empty text that is not JSON throws |
| CartStore.Snapshot | public/cart.js:17-18 | definition: what `saveCart` writes, the current lines |
| CartStore.SaveLoadRoundTrip | public/cart.js:11-20 | loading what `saveCart` stored gives back the same lines; this holds by the definition of `Snapshot`, since JSON encoding is not modelled |
| CartStore.BadgeFor | public/cart.js:34-42 | the counter is shown exactly when the count is positive and then reads back as the count; otherwise it reads "0" |
| CartStore.OrderId | public/cart.js:208 | the order id is "ORD-" then the last eight digits of the clock, which read back as the clock mod 10^8; it is 12 characters from 10^7 ms on |
| CartStore.OrderFor | public/cart.js:203-209 | the order carries the form, a copy of the lines, their total, the date and the order id |
| CartStore.Accepted | public/cart.js:219-221 | definition: a response arrived, its status is ok, and its body parsed as JSON |
| CartStore.ServerError | public/cart.js:231 | the thrown message is the reply's non-empty error, and otherwise a non-empty fallback |
| CartStore.ReplyNotice | public/cart.js:219-237 | an ok JSON reply gives "✅ " and its message (or "undefined"); anything else gives "❌ Ошибка: " followed by the error's message: the server's error (or the fallback) for a non-ok JSON reply, the parse error for a body that is not JSON, the network error when no response came |
| CartStore.Failure | public/cart.js:235 | the failure notice is the prefix followed by the message |
| CartStore.JoinLines | public/cart.js:181-182 | `join('\n')` of no messages is empty, of one is that message, and always ends with the last one; `JoinLinesParts` and `JoinLinesLength` state every message's place |
| CartStore.Lengths | public/cart.js:181-182 | definition: the sum of the messages' lengths |
| CartStore.StartOf | public/cart.js:181-182 | definition: where the i-th message starts once joined: the earlier messages' lengths plus one separator each |
| CartStore.JoinLinesLength | public/cart.js:181-182 | the joined text is as long as the messages together plus one separator between each two |
| CartStore.JoinLinesParts | public/cart.js:181-182 | every message appears in the joined text, in order, starting at `StartOf`, and each but the last is followed by '\n' |
| CartStore.JoinLinesPartsEarlier | public/cart.js:181-182 | a message before the last is in place in the joined text and followed by '\n' |
| CartStore.JoinLinesPartsLast | public/cart.js:181-182 | the last message starts at `StartOf` and ends the joined text |
| CartStore.Cart.constructor | public/cart.js:6-7 | the cart starts empty over the given storage slot, with no badge drawn yet |
| CartStore.Cart.Init | public/cart.js:547-552 | the lines are loaded from the slot and the badge drawn, or loading throws and nothing changes |
| CartStore.Cart.UpdateCartIcon | public/cart.js:30-43 | the badge is redrawn from the count and nothing else changes |
| CartStore.Cart.SaveCart | public/cart.js:17-20 | the slot holds the current lines and the badge shows their count |
| CartStore.Cart.AddToCart | public/cart.js:74-95 | the lines become the added-to lines, with the count up by 1 and the total up by the line's price; one line per pair is kept, the cart is saved, the notice is "Товар добавлен в корзину", and the result is true |
| CartStore.Cart.RemoveFromCart | public/cart.js:98-110 | true exactly when the pair was in the cart, and then the line is spliced out and saved; otherwise nothing changes |
| CartStore.Cart.UpdateQuantity | public/cart.js:113-127 | true exactly when the pair was in the cart, and then the quantity is set (or the line removed below 1) and saved; otherwise nothing changes |
| CartStore.Cart.ClearCart | public/cart.js:130-139 | the question is asked exactly when the cart is non-empty; the cart is emptied and saved, and "Корзина очищена" shown, only when it was asked and confirmed |
| CartStore.Cart.SubmitOrderForm | public/cart.js:190-238 | an order is sent exactly when all rules hold and the cart is non-empty; the result is true exactly when the reply was ok and parsed; only then is the cart emptied; each path shows its own notice |
| CartStore.SubmitAcceptedClears | public/cart.js:219-229 | a valid one-line order answered with an ok JSON reply leaves the cart empty, with count 0 and a hidden "0" badge, returns true and shows "✅ " followed by the server's message |
| CartStore.ServerErrorShown | public/cart.js:230-235 | a non-ok reply with an error shows that error after the failure prefix and is not accepted |
| CartStore.ServerErrorFallback | public/cart.js:231 | a non-ok reply without an error shows "Ошибка сервера" |
| CartStore.OkButNotJsonKeepsCart | public/cart.js:219 | an ok reply whose body does not parse is not accepted, and it shows the parse error |
| CartStore.RemoveMissing | public/cart.js:98-110 | removing an id that no line has returns false and leaves the cart as it was |
| CatalogFilter.Truthy | public/catalogfilter.js:157-162 | definition: the truthiness test on a category: present and not the empty text |
| CatalogFilter.Contains | public/catalogfilter.js:36-54 | definition: `includes`: the part occurs in the text at some position |
| CatalogFilter.MainCategoryBySub | public/catalogfilter.js:102-111 | hoodie/sweatshirt map to clothing, pin/cap/shopper to accessories, poster/case to other, and nothing else to a main category |
| CatalogFilter.FirstMatch | public/catalogfilter.js:36-57 | the first rule that matches the title or image, and nothing exactly when none matches; the constant `Rules` lists the seven keyword rules of lines 36-54 in their order |
| CatalogFilter.RuleMatches | public/catalogfilter.js:36-54 | definition: a rule matches when the title contains its title word or the image address its image word |
| CatalogFilter.RulesAgreeWithMainCategory | public/catalogfilter.js:36-57 | every keyword rule assigns a subcategory whose main category is the category it assigns |
| CatalogFilter.PriceOf | public/catalogfilter.js:60-61 | a missing or empty price reads as 0; otherwise the price is NaN exactly when the text has no digit, else the value of its digits |
| CatalogFilter.ItemOf | public/catalogfilter.js:29-64 | a card keeps its own categories when it has one; otherwise the first matching rule's categories, if any; and its price is read from the price text |
| CatalogFilter.Meets | public/catalogfilter.js:158-165 | definition: one `filter` call's condition: the category, the subcategory, both, or membership of a chosen list |
| CatalogFilter.Filter | public/catalogfilter.js:158-165 | `filter` keeps exactly the products that meet the condition, and no more of them |
| CatalogFilter.FilterIsSubsequence | public/catalogfilter.js:158-165 | `filter` keeps the products in their order |
| CatalogFilter.FilterDistinct | public/catalogfilter.js:158-165 | filtering a list without repeats gives a list without repeats |
| CatalogFilter.FilterTwice | public/catalogfilter.js:157-166 | filtering by category and then by subcategory is filtering by both |
| CatalogFilter.FilterAppend | public/catalogfilter.js:158-165 | filtering distributes over putting lists together |
| CatalogFilter.Selected | public/catalogfilter.js:157-166 | definition: no main category keeps every product; otherwise the product's category is it, and its subcategory too when one is set |
| CatalogFilter.FilterProducts | public/catalogfilter.js:154-167 | with no main category every product is kept; otherwise exactly the products of the main category, and of the subcategory too when one is set |
| CatalogFilter.FilterProductsOrder | public/catalogfilter.js:154-167 | the filtered products keep the products' order and have no repeats when the products have none |
| CatalogFilter.UnknownSubShowsAll | public/catalogfilter.js:91-93 | after selecting a subcategory with no known main category, every product is listed |
| CatalogFilter.SortKey | public/catalogfilter.js:180-181 | definition: the comparator's key `parseInt(price) \|\| 0` |
| CatalogFilter.Insert | public/catalogfilter.js:179-191 | one insertion step adds exactly the one product |
| CatalogFilter.SortByPrice | public/catalogfilter.js:179-191 | the sorted list is a permutation of the input |
| CatalogFilter.InsertSorted | public/catalogfilter.js:179-191 | inserting into a price-ordered list keeps it ordered |
| CatalogFilter.SortByPriceSorted | public/catalogfilter.js:177-191 | the sorted list is non-decreasing (ascending) or non-increasing (descending) by `parseInt(price) \|\| 0` |
| CatalogFilter.RestoreOriginalOrder | public/catalogfilter.js:200-204 | exactly the page-order products that are in the list, in page order |
| CatalogFilter.ApplySorting | public/catalogfilter.js:173-198 | the two price sorts give a sorted permutation; any other value restores the page order |
| CatalogFilter.DefaultOrderIsFilterOrder | public/catalogfilter.js:193-204 | restoring the page order of filtered products gives the filtered products back unchanged |
| CatalogFilter.Listed | public/catalogfilter.js:154-198 | definition: the products the current state lists, the filtered products in the chosen sort order |
| CatalogFilter.ListedFacts | public/catalogfilter.js:154-198 | the listed products are exactly the selected ones, without repeats, whatever the sort |
| CatalogFilter.ShownFacts | public/catalogfilter.js:206-208 | the products to show are distinct products of the catalog |
| CatalogFilter.Prefix | public/catalogfilter.js:208 | `slice(0, n)` is the first min(n, \|s\|) products |
| CatalogFilter.Collected | public/catalogfilter.js:29-65 | one product per card, in card order, the k-th keyed k and classified from the k-th card |
| CatalogFilter.Paint | public/catalogfilter.js:212-220 | after the two passes, the i-th product to show is displayed in position i and every other card is hidden |
| CatalogFilter.CatalogFilter.Valid | public/catalogfilter.js:3-12 | definition: a whole number of pages of 12 is visible, the page order is the collected order, and each card is keyed by its position |
| CatalogFilter.CatalogFilter.Rendered | public/catalogfilter.js:206-243 | definition: the first `visibleCount` listed products are displayed in order and all other cards hidden, the count is the number listed, and the button shows exactly when more are listed than visible |
| CatalogFilter.CatalogFilter.constructor | public/catalogfilter.js:3-12 | the filter starts with no categories, one page, the default sort and the collected products, and the page shows that state |
| CatalogFilter.CatalogFilter.Init | public/catalogfilter.js:14-23 | the products are collected, rendered, and all products shown from the first page |
| CatalogFilter.CatalogFilter.CollectProducts | public/catalogfilter.js:25-68 | `allProducts` and `originalOrder` each gain the collected products, in card order |
| CatalogFilter.CatalogFilter.RenderProducts | public/catalogfilter.js:206-243 | the first `visibleCount` listed products are displayed in order and all other cards hidden; the count is the number listed, and the load-more button shows exactly when more are listed than visible |
| CatalogFilter.CatalogFilter.SelectFilter | public/catalogfilter.js:88-97 | a main filter sets its category and clears the subcategory; a subcategory filter sets it and its main category; the visible count goes back to 12 and the page is redrawn |
| CatalogFilter.CatalogFilter.ChangeSort | public/catalogfilter.js:117-121 | the sort becomes the chosen value, nothing else changes, and the page is redrawn |
| CatalogFilter.CatalogFilter.LoadMore | public/catalogfilter.js:137-140 | the visible count rises by exactly 12 and the page is redrawn |
| CatalogFilter.CatalogFilter.ShowAllProducts | public/catalogfilter.js:142-152 | both categories are cleared, the visible count is 12, and the page is redrawn |
| CatalogFilter.LoadMoreHiddenIffAllVisible | public/catalogfilter.js:237-241 | the button is hidden (`visibleCount >= total`) exactly when every listed product is visible |

## Left out

- The page itself is not modelled: cart rendering, the order summary, the counter element, notifications and the form's success and error states. A notification is modelled as the text it would show.
- Event wiring is not modelled: the click, change and submit listeners, `setupEventListeners`, `setupFilters`, `setupSorting` and `setupPagination`. The state changes they trigger are the class methods.
- `setInterval`, `clearInterval` and `setTimeout` are timers and are left out. `Countdown.Tick` is one call of the interval body.
- `fetch` is I/O. Its outcome is the `Reply` parameter: no response, or a status with a body that parsed as JSON or did not.
- `new Date()` and `Date.now()` are parameters. `Countdown.Tick` takes the target and the clock reading in milliseconds. `CartStore.Cart.SubmitOrderForm` takes the ISO date text and the clock.
- `confirm()` is I/O. Its answer is a boolean parameter.
- `localStorage` and JSON are I/O. A snapshot is a value: the lines that were saved, or text that is not JSON. Stored text that is valid JSON but not an array of lines is not modelled.
- Prices are JavaScript numbers, which are doubles. The model uses unbounded integers, so rounding above 2^53 is not modelled.
- A product's price is given to `CartLines.AddedTo` already read by `parseInt`, as a number or nothing. How `parseInt` reads a price text is not modelled.
- `CartStore.OrderId` takes the clock as a natural number. `Date.now().toString()` switches to exponent notation above 10^21; that case is not modelled.
- Cart lines are values, so `existing.quantity += 1` and `item.quantity = newQuantity` are modelled as replacing the line in the array. The cart array and `getItems()` copies never share line objects in the model.
- `CartStore.Cart.UpdateCartIcon` always draws the badge. In the source, `createCounter` returns `null` when the page has no cart button, and setting the counter's text then throws. That failure is not modelled.
- `CheckoutForm.ValidateFormData` takes five strings. The submit listener always passes strings, but a missing field would make `data.phone.replace` throw before `!data.phone` is evaluated; that is not modelled.
- Replies whose JSON body is not an object, and an `error` field that is not a string, are not modelled.
- `CartStore.Cart.SubmitOrderForm`: the two awaits (public/cart.js:213-219) are treated as one step. Other cart actions that run while the reply is awaited are not modelled; on success `cart = []` would also drop lines added in that window, which were not in the order.
- The submit listener checks for an empty cart before collecting the form, at public/cart.js:483-486. `CartStore.Cart.SubmitOrderForm` models `submitOrderForm`, which checks the form first.
- `CatalogFilter.SortByPriceSorted`: `Array.prototype.sort` is stable. The model is a stable insertion sort, but stability (equal prices keeping their order) is not stated as a property.
- `CatalogFilter.CatalogFilter.RenderProducts`: the product count text `(${total} товаров)` is modelled as the number `productCount`, not as text.
- `CatalogFilter.ItemOf`: the image address is the `src` attribute as text. The browser's resolution of that address to a full URL is not modelled.
- Cards are identified by position (`key`), where the source uses DOM element identity.
