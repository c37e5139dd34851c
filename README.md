# WASHNET laundry point-of-sale: a Dafny model

This project models the client-side logic of the WASHNET laundry system:

- The staff point-of-sale order form (`CreateOrderModal` in
  `EmployeeDashboard.js`). It holds the customer fields, an item list, an
  order total and an order-level service type. Its handlers edit the fields
  and items. Its submit handler checks the form in a fixed order and builds
  the order sent to the server.
- The service-type resolution and the price table shared by the item
  handlers.
- The employee signup form (`Signup.js`). It runs four checks in order and
  then calls `register` with trimmed values.
- The customer page helpers (`CustomerHome.js`): the weather glyph, the
  choice of the best laundry day, the demo forecast, the order-status
  colour, and the guard in front of the order search.

Modules:

- `Wrappers`: `Option` and `Result`.
- `Text`: the JavaScript string operations the forms use. These are `trim`,
  `trimStart`, `replace(/\D/g, '')`, `toLowerCase`, `includes`, `<` on
  strings, and the email pattern `^[^\s@]+@[^\s@]+\.[^\s@]+$`.
- `Pricing`: the service types (the values of the orders' `service_type`
  column), `determineServiceType`, the price table and the total, with the
  loop that computes it.
- `OrderForm`: the form as a class `Form`. Each handler is a method that
  keeps the invariant `Valid`. `Valid` says:
  - there is at least one item;
  - quantities are at least 1;
  - names are stored trimmed;
  - the phone has at most 11 digits;
  - the stored total and service type match the items, unless some item is
    still unnamed.

  An unnamed item blocks submission, so a stale total is never sent. The
  blank item that "Add Item" appends makes the list unnamed until it is
  filled in.
- `Signup`: the signup form as a class `SignupForm`.
- `CustomerHome`: the customer page helpers.

The current date ("today", an ISO `YYYY-MM-DD` string) and the value that
`register` resolves to are parameters.

Behaviour of the code worth noting:

- The submit handler stops at the first failing check. It does not collect
  every error.
- The order sent has no `service_type`.
- "Add Item" does not recompute the total (`OrderForm.AddItemLeavesTotalStale`).
- "Today" is the UTC date of `toISOString`, not a local calendar date.
- Order status has only a colour lookup. There is no transition code.

## Model

| member | source | states |
|---|---|---|
| Pricing.PresentTypes | laundry-frontend/src/components/EmployeeDashboard.js:10 | The typed items' service types. Items without a type are dropped. A type occurs in the list iff some item carries it, and the list is empty iff no item is typed. |
| Pricing.DetermineServiceType | laundry-frontend/src/components/EmployeeDashboard.js:7-24 | The order type is `WashDry`, `Mixed` or the type of some item. |
| Pricing.SharedTypeResolves | laundry-frontend/src/components/EmployeeDashboard.js:13-16 | When every typed item has type T, and at least one does, the order type is T. |
| Pricing.DistinctTypesResolveMixed | laundry-frontend/src/components/EmployeeDashboard.js:18-21 | Two items with different types make the order `Mixed`. |
| Pricing.UntypedResolvesWashDry | laundry-frontend/src/components/EmployeeDashboard.js:8-24 | With no items, or no typed item, the order type is `WashDry`. |
| Pricing.Price | laundry-frontend/src/components/EmployeeDashboard.js:247-257 | A unit price is between 50 and 100. It is 60 exactly for wash-only and 50 exactly for dry-only. Wash-and-dry, a missing type and a type outside the table (`Mixed`) cost 100. |
| Pricing.TotalOf | laundry-frontend/src/components/EmployeeDashboard.js:253-259 | The `forEach` loop ends with Σ price × quantity (`ComputeTotal`). The same loop appears again at lines 294-300. |
| Pricing.TotalAppend | laundry-frontend/src/components/EmployeeDashboard.js:253-259 | The total of two lists put together is the sum of their totals. |
| Pricing.TotalPermutation | laundry-frontend/src/components/EmployeeDashboard.js:253-259 | Reordering the items does not change the total. |
| Pricing.TotalBounds | laundry-frontend/src/components/EmployeeDashboard.js:247-259 | With non-negative quantities, 50 × Σ quantity ≤ total ≤ 100 × Σ quantity. |
| Pricing.TotalAllWashDry | laundry-frontend/src/components/EmployeeDashboard.js:247-259 | When every item is wash-and-dry, the total is 100 × Σ quantity. |
| Pricing.PricingExamples | laundry-frontend/src/components/EmployeeDashboard.js:247-262 | 5 wash-and-dry shirts and 2 dry-only jeans cost 600 and make a `Mixed` order. 3 wash-only towels cost 180 and make a `WashOnly` order. |
| Text.TrimStart | laundry-frontend/src/components/Signup.js:25 | Only a leading whitespace prefix is removed. The result is a suffix of the input and does not start with whitespace. |
| Text.Trim | laundry-frontend/src/components/EmployeeDashboard.js:319-320 | The result has no whitespace at either end. It is empty iff the input is whitespace only, which is the `!s.trim()` test. |
| Text.TrimIsInfix | laundry-frontend/src/components/EmployeeDashboard.js:319 | Trimming removes only a whitespace prefix and a whitespace suffix. |
| Text.TrimOfTrimmed | laundry-frontend/src/components/EmployeeDashboard.js:207 | Trimming a string that is already trimmed changes nothing. |
| Text.TrimAfterTrimStart | laundry-frontend/src/components/Signup.js:25-41 | `trim` after `trimStart` is the same as `trim`, and the blank test does not change. |
| Text.DigitsOnly | laundry-frontend/src/components/EmployeeDashboard.js:199 | The result holds only digits, is no longer than the input, and equals the input when the input is all digits. |
| Text.DigitsOnlyChar | laundry-frontend/src/components/EmployeeDashboard.js:199 | On one character, a digit is kept and anything else is removed. With `DigitsOnlyAppend`, this fixes the result on every string: the input's digits, in order. |
| Text.DigitsOnlyAppend | laundry-frontend/src/components/EmployeeDashboard.js:199 | Removing non-digits works piece by piece: it distributes over concatenation. |
| Text.ToLower | laundry-frontend/src/components/CustomerHome.js:110 | Same length, and each character is mapped by the ASCII lower-case mapping. |
| Text.ToLowerIdempotent | laundry-frontend/src/components/CustomerHome.js:110 | Lower-casing twice is the same as lower-casing once. |
| Text.IncludesIff | laundry-frontend/src/components/CustomerHome.js:111-116 | `includes` holds iff the word occurs at some position. |
| Text.StrLessIrreflexive | laundry-frontend/src/components/EmployeeDashboard.js:354-363 | No date string is before itself. |
| Text.StrLessTransitive | laundry-frontend/src/components/EmployeeDashboard.js:354-363 | `<` on strings is transitive. |
| Text.StrLessTotal | laundry-frontend/src/components/EmployeeDashboard.js:354-363 | Of two different strings, one is before the other. |
| Text.IsEmailIff | laundry-frontend/src/components/EmployeeDashboard.js:333 | The email test reads the string once, left to right, through six states. It accepts exactly the strings of the pattern read as a grammar: a non-empty atom, '@', an atom, '.', an atom, where atoms hold no whitespace and no '@'. |
| Text.ScanLocal | laundry-frontend/src/components/EmployeeDashboard.js:333 | Inside the local part, the reading accepts iff some '@' ends an atom and the rest is a valid domain. |
| OrderForm.PhoneInput | laundry-frontend/src/components/EmployeeDashboard.js:196-203 | The stored phone is the first min(n, 11) digits of the input, where n is its digit count. It is digits only and at most 11 long. |
| OrderForm.TrimNames | laundry-frontend/src/components/EmployeeDashboard.js:399-402 | Same length, and each item is kept with its name trimmed. |
| OrderForm.TrimNamesOfTrimmed | laundry-frontend/src/components/EmployeeDashboard.js:399-402 | On stored items, whose names are already trimmed, trimming names changes nothing. |
| OrderForm.AddItemLeavesTotalStale | laundry-frontend/src/components/EmployeeDashboard.js:272-281 | After "Add Item", the real total exceeds the kept total by 100, the price of the blank item. |
| OrderForm.RemoveAt | laundry-frontend/src/components/EmployeeDashboard.js:285 | One item fewer and the rest kept in order. With an index out of range, the list is unchanged. |
| OrderForm.Accepted | laundry-frontend/src/components/EmployeeDashboard.js:389-408 | The order sent has the trimmed email, the notes, the total and the delivery method. Only the chosen method's date is kept; the other is empty. |
| OrderForm.AcceptedName | laundry-frontend/src/components/EmployeeDashboard.js:318-322 | An accepted name is non-empty and is sent as stored, already trimmed. |
| OrderForm.AcceptedPhone | laundry-frontend/src/components/EmployeeDashboard.js:325-330 | An accepted phone has 10 or 11 digits and is sent as stored, digits only. |
| OrderForm.AcceptedEmail | laundry-frontend/src/components/EmployeeDashboard.js:332-336 | The email sent is trimmed, and it is either empty or of the form local@domain.tld. |
| OrderForm.AcceptedItems | laundry-frontend/src/components/EmployeeDashboard.js:338-351 | The items are sent as stored and are all named. The total sent and the service type stored are those of the items, even after "Add Item". |
| OrderForm.AcceptedDates | laundry-frontend/src/components/EmployeeDashboard.js:353-381 | The chosen method's date is present and not before today. The other date is sent empty. |
| OrderForm.NormalizedRevalidates | laundry-frontend/src/components/EmployeeDashboard.js:318-381 | The normalised fields pass every check that the raw fields passed. |
| OrderForm.AcceptedFixedPoint | laundry-frontend/src/components/EmployeeDashboard.js:389-405 | Normalising an order that was already sent gives the same order back. |
| OrderForm.ShortPhoneRefused | laundry-frontend/src/components/EmployeeDashboard.js:325-330 | Phone "123" is refused as invalid once the name check passes. |
| OrderForm.PastPickupRefused | laundry-frontend/src/components/EmployeeDashboard.js:353-358 | A pickup date before today is refused as lying in the past, when the earlier checks pass. |
| OrderForm.Form.constructor | laundry-frontend/src/components/EmployeeDashboard.js:176-187 | Empty fields, one blank wash-and-dry item, service type `Mixed`, total 0, delivery chosen, no dates. |
| OrderForm.Form.HandleChange | laundry-frontend/src/components/EmployeeDashboard.js:189-226 | The phone is kept to at most 11 digits and a name is stored trimmed. Choosing a method clears the other date. A pickup date later than the delivery date clears the delivery date. Items, total and type are untouched, and `Valid` is kept. |
| OrderForm.Form.HandleItemChange | laundry-frontend/src/components/EmployeeDashboard.js:228-270 | Only field `field` of item `index` changes. A quantity below 1 is stored as 1 and a name is stored trimmed. The total and type are recomputed. |
| OrderForm.Form.AddItem | laundry-frontend/src/components/EmployeeDashboard.js:272-281 | Appends exactly the blank item and recomputes the type. The total is kept as it was. |
| OrderForm.Form.RemoveItem | laundry-frontend/src/components/EmployeeDashboard.js:283-312 | With one item, nothing changes. Otherwise the item at `index` is removed, the rest stay in order, and the total and type are recomputed. The list is never empty. |
| OrderForm.Form.Check | laundry-frontend/src/components/EmployeeDashboard.js:318-381 | The early-return checks give exactly the first failure of `FirstFailure`. The order is: name, phone, email, some named item, no unnamed item, date in the past, date missing. |
| OrderForm.Form.ClearOtherDate | laundry-frontend/src/components/EmployeeDashboard.js:367-381 | The date of the method not chosen is emptied in the form itself. |
| OrderForm.Form.Submit | laundry-frontend/src/components/EmployeeDashboard.js:314-413 | It fails iff some check fails, with the first failure, and the form is unchanged. Otherwise it sends `Accepted` of the form, and only the other date is cleared in the form. The "delivery after pickup" rejection cannot fire. |
| Signup.RegistrationOf | laundry-frontend/src/components/Signup.js:67-73 | `register` gets the name, email and code trimmed: each is its input with a whitespace prefix and suffix removed, and starts and ends with a non-space (with `Text.TrimIsInfix` this is `trim`). The passwords are passed as typed. |
| Signup.StoredNameBlankIffEmpty | laundry-frontend/src/components/Signup.js:25-44 | A name stored by the change handler, with no leading whitespace, is blank exactly when it is empty. |
| Signup.SignupFailureOrder | laundry-frontend/src/components/Signup.js:40-65 | Each message is reported exactly when its check is the first to fail. The checks run name, email, password match, code. All pass iff none fails. |
| Signup.AcceptedRegistration | laundry-frontend/src/components/Signup.js:40-73 | What passes is sent as a non-empty trimmed name, a trimmed local@domain.tld email and two equal passwords. |
| Signup.WhitespaceCodeSentEmpty | laundry-frontend/src/components/Signup.js:61-72 | A whitespace-only code passes the code check and is sent as the empty string. |
| Signup.NameEditInvisibleToSubmit | laundry-frontend/src/components/Signup.js:25-42 | Removing leading whitespace while typing changes neither the checks' outcome nor the name sent. |
| Signup.SignupForm.constructor | laundry-frontend/src/components/Signup.js:6-14 | Empty fields, no error, not loading. |
| Signup.SignupForm.HandleChange | laundry-frontend/src/components/Signup.js:19-33 | The name is stored without leading whitespace. Every other input is stored as typed, and the name never starts with whitespace. |
| Signup.SignupForm.HandleSubmit | laundry-frontend/src/components/Signup.js:35-82 | `register` is called iff all checks pass, with `RegistrationOf` the fields. Otherwise the error is the first failure's message. It navigates iff registration succeeds, else shows the returned message. `loading` is false on every exit, and the name still does not start with whitespace (`Valid`). Because the stored name has no leading whitespace, the name check fails exactly when the name is empty. |
| CustomerHome.WeatherIcon | laundry-frontend/src/components/CustomerHome.js:109-118 | For each glyph: it is returned iff the lower-cased condition mentions one of its words and none of an earlier group's. Rain or drizzle always gives the rain glyph. |
| CustomerHome.WeatherIconIgnoresCase | laundry-frontend/src/components/CustomerHome.js:110 | The glyph does not depend on ASCII letter case. |
| CustomerHome.BestDayIndex | laundry-frontend/src/components/CustomerHome.js:92-95 | The first entry that mentions neither rain nor storm, or -1 when none does. Every earlier entry mentions one of them. |
| CustomerHome.FindBestLaundryDay | laundry-frontend/src/components/CustomerHome.js:90-107 | It gives the first good day with its date, temperature and condition. When no day is good, it gives entry 0 labelled "Tomorrow". |
| CustomerHome.DemoForecast | laundry-frontend/src/components/CustomerHome.js:63-83 | 40 entries, three hours apart, "Rain" at entry 8 and "Clear" elsewhere, at 28 + i mod 5 degrees. |
| CustomerHome.DemoEntryIsGoodDay | laundry-frontend/src/components/CustomerHome.js:66-95 | A demo entry is a laundry day iff it is not entry 8. |
| CustomerHome.DemoBestDay | laundry-frontend/src/components/CustomerHome.js:63-103 | On the demo forecast the best index is 0. The best day is the current time, 28 degrees, "Clear". |
| CustomerHome.DrizzleIsLaundryDay | laundry-frontend/src/components/CustomerHome.js:92-111 | A "Drizzle" entry counts as a laundry day, yet its glyph is the rain glyph. |
| CustomerHome.StatusColor | laundry-frontend/src/components/CustomerHome.js:175-184 | A known status gets its mapped colour. Grey is given iff the status is unknown. The identical lookup is at EmployeeDashboard.js lines 66-75. |
| CustomerHome.ReadyAndCompletedShareGreen | laundry-frontend/src/components/CustomerHome.js:179-180 | Ready and completed orders share green. |
| CustomerHome.SearchRequest | laundry-frontend/src/components/CustomerHome.js:141-155 | It refuses with "Please enter your name" iff the name is blank. Otherwise it searches with the non-empty trimmed name. |
| CustomerHome.SearchIgnoresSurroundingSpace | laundry-frontend/src/components/CustomerHome.js:143-155 | Searching for the trimmed name has the same outcome. |

## Left out

- HTTP calls and their responses: `fetchOrders`, `handleCreateOrder`, `fetchWeather`, the order search request and its results, and `register` itself. The value `register` resolves to is a parameter of `Signup.SignupForm.HandleSubmit`.
- Rendering, alerts and console output. A failed check is a `SubmitError` value or an error string.
- `AuthContext.js`, `AuthController.php` and its access-code rule, the database migration (only its service-type values are used), and the bootstrap and configuration files.
- Order status transitions. No transition code exists, only the colour lookup.
- `groupForecastByDay`, temperature rounding and locale date formatting. The best day's date is the entry's time (`DateOf`), not the formatted text.
- The browser's constraint validation, which runs before either submit handler. It covers `required` on the inputs, the phone's `pattern="[0-9]{10,11}"` and `maxLength`, the date's `min={today}`, `type="email"` and the password's `minLength="8"` (EmployeeDashboard.js lines 434, 447-450, 463, 512, 527, 533 and 561-562; Signup.js lines 108, 117, 121, 135-136, 150-151 and 166). The handlers are modelled on any input. Some refusals they make, such as `OrderForm.PastPickupRefused`, are in the browser already made by that validation.
- React's asynchronous state updates. Each handler is modelled by the state it leaves behind.
- `OrderForm.Form.HandleItemChange`: the handler copies the list shallowly and writes into the shared item object. Items are values here, so that aliasing is not modelled.
- `OrderForm.Form.HandleChange`: only the two radio values of the delivery method are modelled. Any other string would make the delivery-after-pickup check reachable; with the radio values it is dead.
- `Pricing.DetermineServiceType`: a missing item list (`!items`) is not modelled. Service types are the four column values; an empty type is `None`, and other strings are not modelled.
- `OrderForm.Form.HandleItemChange` and `Pricing.TotalOf`: quantities are integers already parsed. `parseInt` and the `|| 0` fallback (EmployeeDashboard.js:233, 256, 297) are not modelled.
- `Text.ToLower`: only ASCII letters are lower-cased, unlike JavaScript's full Unicode mapping.
- `Text.StrLess`: compares Unicode scalar values. JavaScript compares UTF-16 code units, which differs only for characters above U+FFFF. Dates are ASCII.
- `CustomerHome.StatusColor`: for status names inherited from JavaScript's object prototype (such as "constructor"), the source returns an inherited function. The model returns grey.
- `CustomerHome.DemoForecast`: `now` is a whole number of seconds, and the hour arithmetic ignores daylight-saving shifts. Descriptions, humidity, wind and minimum/maximum temperatures are not modelled.
- `CustomerHome.FindBestLaundryDay`: requires a non-empty forecast, as its two callers guarantee. On an empty list the source fails on `forecast[0]`.
- `OrderForm.PhoneInput` is not evaluated on a literal such as "0912-345-6789"; `Text.DigitsOnlyChar` and `Text.DigitsOnlyAppend` determine its result.
