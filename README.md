# Booking wizard of the sponsor-index scheduler, in Dafny

This project models the browser side of a small appointment scheduler. A visitor goes through a
three-page wizard: page 1 picks a weekday date, page 2 picks a time, and page 3 collects contact
details and POSTs the booking as JSON. The page keeps one draft record (`formData`). It also
derives a tracking slug that names the newsletter the visitor came from.

The model has four modules:

- `JsText`: the JavaScript string operations the page uses. These are `toString` on non-negative
  integers, `padStart(2, '0')`, `includes`, `split('/')` and `filter(segment => segment)`. Each
  comes with its partner: a decimal reader for `toString`, a two-digit reader for `padStart`, a
  matching position for `includes`, `Join` for `split`, and a multiset count for `filter`.
- `Slug`: `generateUrlSlug` as a pure function with three tiers. First, the second path segment
  of a `sponsorindex.com` referrer under `/top-newsletters/`. Then a non-empty `newsletter` query
  value. Then `newsletter-` followed by the clock.
- `TimeSlots`: `generateTimeSlots` as a method with nested loops that builds the 32 buttons
  (09:00 to 16:45). Two independent readers state what each button's two strings mean. One
  reads `HH:MM` with exactly two digits on each side. The other reads `h:mm AM` or `h:mm PM`
  with an hour from 1 to 12 written without a leading zero. Both give minutes since midnight.
- `Wizard`: a class holding the draft, the time buttons' `selected` flags, the pages'
  display flags and the progress steps' `active` flags. Its methods are `selectTime`,
  `updateProgress`, `validatePage`, `nextPage`, `previousPage` and the submit handler. A pure
  `Classify` function gives the submit handler's reading of the server's reply.

`server.js` inserts the fields it receives as they are: it neither validates them nor
normalises the slug, and it answers `{success: true, message}` without the stored row
(server.js:62-106).

## Model

The functions that compute the page's strings have no rows of their own; the lemmas about them
state what they compute. `TimeSlots.Label24` is covered by `Time24Denotes`. `TimeSlots.Label12`,
`Hour12` and `Meridiem` are covered by `Clock12Hour` and `Time12Denotes`. `JsText.Includes` is
covered by `IncludesAt` and `IncludesHasPosition`.

| member | source | states |
|---|---|---|
| `JsText.Decimal` | public/script.js:56 | `toString()` of a non-negative integer is never empty, and is a single character exactly for 0..9 |
| `JsText.DecimalDigits` | public/script.js:75-77 | `toString()` of a non-negative integer writes only decimal digits |
| `JsText.DecimalRoundTrip` | public/script.js:56 | reading back the digits `toString()` wrote gives the number again (so the fallback slug identifies its timestamp) |
| `JsText.DecimalNoLeadingZero` | public/script.js:75 | `toString()` starts with `0` only for zero (the 12-hour hour is unpadded) |
| `JsText.DecimalInjective` | public/script.js:56 | different numbers print differently, so fallback slugs from different instants differ |
| `JsText.PadStart2` | public/script.js:75-77 | `padStart(2, '0')` leaves a string of two or more characters at its length and makes a shorter one exactly two long |
| `JsText.PadStart2Pads` | public/script.js:75-77 | `padStart(2, '0')` puts only zeros in front and keeps the original string as the suffix |
| `JsText.PadDecimalBelow100` | public/script.js:75-77 | a number below 100, printed and padded to two places, is its tens digit then its units digit |
| `JsText.ParsePadded` | public/script.js:76-77 | a number below 100 printed and padded to two places reads back as itself |
| `JsText.IncludesAt` | public/script.js:32 | `includes` holds whenever some position of the referrer starts a copy of the site name |
| `JsText.IncludesHasPosition` | public/script.js:32 | every `includes` hit has such a position |
| `JsText.Split` | public/script.js:35 | `split('/')` yields at least one piece and no piece contains `/` |
| `JsText.JoinSplit` | public/script.js:35 | joining the pieces of `split('/')` with `/` gives the path back: splitting loses nothing |
| `JsText.SplitAtSeparator` | public/script.js:35 | the pieces of `a/b` are the pieces of `a` followed by those of `b` |
| `JsText.NonEmpty` | public/script.js:35 | `filter(segment => segment)` keeps only non-empty pieces, keeps every non-empty piece, and keeps each one as often as it occurs (as a multiset, the pieces minus every empty one) |
| `JsText.NonEmptyAppend` | public/script.js:35 | filtering a concatenation filters each half, so the kept pieces stay in path order |
| `Slug.PathSegments` | public/script.js:35 | every path segment is non-empty, contains no `/` and is a piece of the path; as a multiset the segments are the pieces of `split('/')` minus the empty ones |
| `Slug.ReferrerSlug` | public/script.js:32-45 | the referrer tier answers only for a non-empty referrer that mentions `sponsorindex.com` and parses as a URL, and whose path has at least two segments, the first `top-newsletters`; its answer is the second segment, a non-empty, `/`-free piece of the path; conversely every such referrer is answered with its second segment |
| `Slug.GenerateUrlSlug` | public/script.js:27-57 | the slug is never empty |
| `Slug.NewsletterPageGivesName` | public/script.js:34-40 | a referrer path `/top-newsletters/<name>[/...]` gives `<name>`, whatever the query and the clock say |
| `Slug.OtherPageFallsThrough` | public/script.js:35-41 | a path `/<first>[/...]` with `<first>` other than `top-newsletters` gives the slug the page would give with no usable referrer |
| `Slug.QueryTierUsesValue` | public/script.js:48-53 | when the referrer tier falls through, a non-empty `newsletter` value is returned verbatim |
| `Slug.OtherSiteFallsThrough` | public/script.js:32 | a referrer that does not mention the site is never parsed |
| `Slug.ReferrerTierAnswers` | public/script.js:32-40 | a referrer that mentions the site and whose non-empty path segments start with `top-newsletters` gives the next segment as the slug, however many slashes the path has (`//top-newsletters//acme` gives `acme`) |
| `Slug.FallbackCarriesTime` | public/script.js:55-56 | otherwise the slug is `newsletter-` followed by digits, without leading zeros, that read back as the timestamp |
| `TimeSlots.GenerateTimeSlots` | public/script.js:66-90 | the nested loops build exactly the table of 32 buttons, in order |
| `TimeSlots.SlotHourMinute` | public/script.js:71-72 | button `k` is at hour `9 + k / 4` and minute `15 * (k % 4)` |
| `TimeSlots.SlotIndex` | public/script.js:71-72 | pass `j` of the minute loop in hour `hour` appends button `4 * (hour - 9) + j`, whose time is `hour:15j` |
| `TimeSlots.SlotClock` | public/script.js:68-72 | button `k` has an hour in 9..16, a minute in {0, 15, 30, 45}, and is `15 * k` minutes after 09:00 |
| `TimeSlots.Time24Denotes` | public/script.js:76-83 | a button's `HH:MM` string denotes its hour and minute |
| `TimeSlots.Clock12Hour` | public/script.js:73-74 | the clock-face hour is 1..12 and, with the meridiem, gives the hour of the day back |
| `TimeSlots.Time12Denotes` | public/script.js:73-75 | a button's 12-hour label denotes the same time of day as its 24-hour string (13:00 is "1:00 PM", 12:15 is "12:15 PM") |
| `TimeSlots.Slot24Denotes` | public/script.js:71-83 | the `data-time` string of button `k` denotes 09:00 plus `15 * k` minutes |
| `TimeSlots.Slot12Denotes` | public/script.js:71-75 | the label of button `k` denotes 09:00 plus `15 * k` minutes, with an unpadded hour |
| `TimeSlots.SlotsIncreasing` | public/script.js:71-72 | the buttons are in strictly increasing time order |
| `TimeSlots.EveryQuarterHourOffered` | public/script.js:68-72 | every quarter hour from 09:00 to 16:45 has its button |
| `Wizard.Classify` | public/script.js:184-223 | a booking is scheduled only after a received, OK response with a parsed body; a request that fails to arrive is reported with its own error message |
| `Wizard.ScheduledExactlyWhen` | public/script.js:199-220 | a submit succeeds exactly when a response arrived, its body parsed, its status was OK and `success` was truthy |
| `Wizard.FailureExplained` | public/script.js:199-219 | a failed response always yields a non-empty message, and it is the server's `error` when the body carried one; a body that does not parse gives `Invalid response from server: ` and the text whatever the status, and an OK refusal without a reason gives `Failed to schedule appointment` |
| `Wizard.HttpErrorCarriesStatus` | public/script.js:206-207 | a non-OK status without a server reason is reported as `HTTP error! status: ` followed by the status code in plain decimal, without leading zeros |
| `Wizard.ProgressActiveSteps` | public/script.js:138-146 | after `updateProgress(n)` the active steps are exactly 1..n |
| `Wizard.OnePageShown` | public/script.js:215-216 | the display with only page `p` shown (as after a successful booking, which hides every page and shows page 1) has exactly one page on screen |
| `Wizard.SingleSelectCount` | public/script.js:95-100 | a selection set at one button and cleared everywhere else counts one selected button |
| `Wizard.BookingWizard.constructor` | public/script.js:14-24 | page load: the draft is empty except for the generated slug, the 32 buttons exist, none is selected |
| `Wizard.BookingWizard.SelectTime` | public/script.js:93-105 | exactly the clicked button is selected; the draft's `time` and `time12Hour` become its strings; every other draft field is unchanged |
| `Wizard.BookingWizard.UpdateProgress` | public/script.js:138-146 | the step flags become `Progress(n)` |
| `Wizard.BookingWizard.ValidatePage` | public/script.js:148-167 | page 1 passes iff a date is picked (and records it), page 2 iff the draft has a time, other pages always |
| `Wizard.BookingWizard.NextPage` | public/script.js:111-125 | guarded advance: on success page `n` is hidden, page `n + 1` shown, progress is `n + 1`; on failure display and progress are unchanged |
| `Wizard.BookingWizard.PreviousPage` | public/script.js:127-136 | unguarded: page `n` hidden, page `n - 1` shown, progress is `n - 1` |
| `Wizard.BookingWizard.Submit` | public/script.js:171-225 | contact fields go into the draft; success shows page 1 alone with progress 1; every failure leaves display and progress untouched |

## Left out

- `server.js` as a whole: Express routing, CORS, the `pg` pool, the table schema, and an insert
  that passes the fields through. There is no logic of its own to model.
- The flatpickr calendar and its weekend rule (public/script.js:2-12): it is a third-party widget.
  The picked date enters `ValidatePage` and `NextPage` as an `Option<string>`.
- `toISOString().split('T')[0]` (public/script.js:155): it depends on time zones. The picked date
  is taken as the already converted string.
- `new URL(referrer)` and `URLSearchParams`: the referrer's pathname is a parameter (`None` when
  parsing throws), and so is the `newsletter` value (`None` when absent).
- `Date.now()`, `fetch`, `response.text()`, `JSON.parse`, `alert`, `console.*`, DOM creation and
  styling. The clock is a parameter. The reply is a `Reply` value: a network or read failure, or a
  response with `ok`, status, text and parsed body.
- A JSON body of `null`: reading `result.error` or `result.success` then throws a `TypeError`. A non-string `error`
  field: `ReplyBody.error` is a string that is empty when the field is missing or falsy.
- `contactForm.reset()` clears the input elements only. The typed values are parameters here, so
  the reset has no modelled state. The draft `formData` is not cleared on success in the source
  either, and `Submit` says so.
- The page's starting display (page 1 shown, first progress step active) comes from the HTML
  page, which is not part of this model. The constructor assumes that state.
- `NextPage` and `PreviousPage` are specified for the pages that exist: 1..2 and 2..3. With
  other numbers, `getElementById` returns `null` and the browser throws a `TypeError`.
- `UpdateProgress` is specified for at most three steps. A larger `n` would make
  `querySelector` return `null` and throw.
- `Date.now()` is taken as an unbounded natural number. A JavaScript Number from 1e21 upward
  prints in exponent notation, and a negative clock prints a `-`; neither occurs for a real clock.
- `Time12Denotes`: stated for hours 1 to 23 only. At hour 0 the page's formula would print
  `0:mm AM`, which is not a 12-hour time. The generator never reaches hour 0.
