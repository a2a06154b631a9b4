# A Dafny model of the personal site's page script

The site's page script (`script.js`) does three things worth modelling:

- **Elapsed-time display.** It shows how long ago a fixed reference date was. The absolute millisecond distance between that date and now is split into whole days, plus the hours, minutes and seconds of the remainder. The result is rendered into the `timeInfo` element when that element exists.
- **Visit tracking.** It works over the browser's local storage. Each page activation reuses the stored visitor id or creates one. It adds one to the stored visit total and appends a record to a visit log of at most 1000 entries, evicting the oldest first. It stores the visit time and shows the total in the `visitCount` element when that element exists.
- **Class rules on elements.**
  - A finished image is marked `loaded` at once. An unfinished one is marked `loaded` or `error` by its listeners.
  - The navigation bar carries `shadow-md` or `shadow-sm` depending on the scroll offset.
  - Fade-in elements either get the `animate` class or, under a reduced-motion preference, inline styles that show them at once.

Modules, one per component:

- `Wrappers` (`wrappers.dfy`): `Option`, for storage entries that may be absent.
- `Decimal` (`decimal.dfy`): the decimal spelling JavaScript gives whole numbers, the value a digit string denotes, and the round trip between them.
- `Dom` (`dom.dfy`): an `Element` class. It holds a set of class names, the text content, an image's `complete` flag and the two inline style properties the script sets.
- `ElapsedTime` (`elapsed_time.dfy`): `calculateTimeDifference` as a function of two millisecond instants, its range, recombination and uniqueness lemmas, the rendered text, and `updateTimeInfo` as a method.
- `VisitTracking` (`visit_tracking.dfy`): a `Storage` class with the four entries the tracker uses, each with its decoded type.
  - `Track` is the pure function that specifies one activation; `TrackAll` runs several in a row.
  - `AppendBounded` is the bounded log. `Latest` (the last n entries) is the independent reference it is checked against.
  - `InitializeVisitorTracking` and `UpdateVisitCountDisplay` are the methods.
- `ImageLoading` (`image_loading.dfy`): the visiting loop of `optimizeImageLoading`, its two listeners, and a closed form for what any sequence of events does to an image.
- `PageEffects` (`page_effects.dfy`): the nav-shadow scroll listener and `addFadeInAnimations`.

Inputs from the environment:

- Both instants are parameters in milliseconds since the epoch. These are what `new Date(birthDateStr)` and `new Date()` denote.
- Each visit's clock readings, random id suffix and URL are parameters (`Visit`).
- The scroll offset is a `real` parameter.
- A missing element is `null`.

Stored values are kept with their decoded types. The script stores the total with `toString` and reads it back with `parseInt`. `Decimal.DecimalRoundTrip` shows that this round trip returns the stored number for every natural number, so keeping the total as a `nat` loses nothing within the range of whole numbers JavaScript represents exactly.

Three facts about `script.js` that a reader might not expect:

- Neither image listener is removed after it runs, so one image can end up with both `loaded` and `error` (`ImageLoading.DispatchAdds`, `ImageLoading.ImageRule`).
- The visit-count display is updated synchronously at the end of the tracking call (script.js:238).
- A stored log already longer than 1000 entries keeps its length and is never trimmed back to the cap (`VisitTracking.LogEviction`). From an empty or capped log the cap always holds (`VisitTracking.AppendAllIsLatest`).

## Model

| member | source | states |
|---|---|---|
| ElapsedTime.CalculateTimeDifference | script.js:40-56 | hours < 24, minutes < 60 and seconds < 60 for every pair of instants (days is a natural number by type) |
| ElapsedTime.CoarserUnits | script.js:45-48 | whole minutes are whole seconds divided by 60, whole hours whole minutes divided by 60, whole days whole hours divided by 24 |
| ElapsedTime.Recombination | script.js:44-55 | days·86400000 + hours·3600000 + minutes·60000 + seconds·1000 ≤ \|now − birth\| < that + 1000 |
| ElapsedTime.DecompositionUnique | script.js:44-55 | any in-range decomposition that recombines to the distance is the one computed, so range plus recombination characterise the result |
| ElapsedTime.SecondsUnique | script.js:50-55 | in-range days, hours, minutes and seconds are fixed by the total number of seconds they make |
| ElapsedTime.SwapInstants | script.js:44 | the result depends only on the absolute distance, so swapping the reference instant and now changes nothing |
| ElapsedTime.OneDayLater | script.js:40-55 | exactly one day after the reference instant the result is 1 day, 0 hours, 0 minutes, 0 seconds |
| ElapsedTime.TimeInfoTextInjective | script.js:64 | two decompositions with the same rendered text are equal, so the text determines the duration |
| ElapsedTime.TimeInfoText | script.js:64 | the text written into the time-info element: the fixed greeting, then days, hours, minutes and seconds in decimal, each followed by its unit |
| ElapsedTime.UpdateTimeInfo | script.js:58-65 | with no element nothing is written; otherwise only the element's text changes, to the rendering of the current decomposition |
| Decimal.DecimalString | script.js:223 | the spelling of a whole number is non-empty, all digits, and has no leading zero |
| Decimal.DecimalRoundTrip | script.js:222-223 | reading back the decimal spelling of n gives n, the toString/parseInt round trip of the stored total |
| Decimal.DecimalStringInjective | script.js:245 | different totals are displayed differently |
| Decimal.NumberThenSeparator | script.js:64 | a number followed by text that starts with a non-digit splits back uniquely into the number and that text |
| Decimal.DigitChar | script.js:64 | a digit value maps to a digit character |
| Decimal.DecimalValue | script.js:222 | the number a string of decimal digits denotes, most significant digit first, as `parseInt` reads the stored total |
| Decimal.DigitValue | script.js:222 | a digit character has a value below ten |
| VisitTracking.GenerateVisitorId | script.js:211-213 | a new id: "visitor_", the clock reading in decimal, "_", the random suffix; it always starts with "visitor_" and so is never empty |
| VisitTracking.ChooseVisitorId | script.js:215 | the stored id when present and non-empty, the generated one otherwise; non-empty whenever the generated one is |
| VisitTracking.Track | script.js:215-236 | the storage one activation leaves: all four entries written, a non-empty visitor id, lastVisit = now, and a log within the cap stays within it |
| VisitTracking.TrackAll | script.js:210-236 | several activations in a row; after at least one, lastVisit is the last visit's time and the id is non-empty, and a log within the cap stays within it |
| VisitTracking.AppendBounded | script.js:225-233 | the record just pushed is the last entry, and a log within the cap stays within it |
| VisitTracking.LogEviction | script.js:225-233 | below 1000 entries: old log plus the record; at 1000: old log without its first entry plus the record, length 1000; above 1000: the same shift, length unchanged |
| VisitTracking.AppendBoundedIsLatest | script.js:225-233 | within the cap, one append keeps exactly the latest 1000 of old log plus record |
| VisitTracking.LatestAppend | script.js:231-233 | keeping the latest n entries before an append and again after it is the same as keeping them once, after |
| VisitTracking.AppendAllIsLatest | script.js:225-235 | after any number of appends to a log within the cap, the log is the latest 1000 of old log plus all new records, in order |
| VisitTracking.TrackStep | script.js:210-236 | one activation: total = stored + 1 (1 if absent); a present non-empty id is kept, otherwise the generated one is stored; the last log entry is a record with the stored id, now and URL; lastVisit = now |
| VisitTracking.VisitorIdSticks | script.js:211-216 | after one activation the stored id is non-empty, and the next activation keeps it |
| VisitTracking.TrackAllTotal | script.js:222-223 | after k activations the stored total has grown by exactly k |
| VisitTracking.TrackAllKnownVisitor | script.js:215-235 | a known visitor keeps their id across any number of activations, and the log holds the latest 1000 records of old log plus one record per visit with that id, in visit order |
| VisitTracking.RecordsFor | script.js:225-229 | successive visits contribute one record each |
| VisitTracking.Latest | script.js:231-233 | the reference for the log: at most n entries, the last ones |
| VisitTracking.UpdateVisitCountDisplay | script.js:241-247 | with no element nothing is written; otherwise the element's text becomes the stored total (0 if absent) and nothing else changes |
| VisitTracking.InitializeVisitorTracking | script.js:210-239 | storage afterwards is `Track` of storage before; the element, if present, shows the new total, and its text reads back as that total |
| ImageLoading.ClassesOnVisit | script.js:80-81 | the visit adds only `loaded`, and only to a complete image; everything else is kept |
| ImageLoading.OnEvent | script.js:83-90 | the load listener adds `loaded`, the error listener adds `error` |
| ImageLoading.Dispatch | script.js:83-90 | the listeners run once per event in arrival order; they only add, and add nothing but `loaded` and `error` |
| ImageLoading.ClassesAfter | script.js:79-91 | an image's classes after the visit and later events: the old classes plus at most `loaded` and `error`, with `loaded` for a complete image |
| ImageLoading.DispatchAdds | script.js:83-90 | any sequence of events leaves the old classes and adds `loaded` exactly if a load event came and `error` exactly if an error event came |
| ImageLoading.ImageRule | script.js:79-91 | a complete image gains `loaded` and later events change nothing; an incomplete one has `loaded` exactly after a load event and `error` exactly after an error event; no class is removed |
| ImageLoading.OptimizeImageLoading | script.js:76-93 | each complete image gains `loaded`, others keep their classes, and the images left waiting for events are exactly the incomplete ones |
| ImageLoading.OnImageLoad | script.js:83-85 | the load listener adds `loaded` and nothing else |
| ImageLoading.OnImageError | script.js:87-90 | the error listener adds `error` and nothing else |
| PageEffects.NavClasses | script.js:117-123 | `shadow-md` present and `shadow-sm` absent exactly when scrollY > 50, the reverse exactly otherwise, all other classes unchanged |
| PageEffects.Scrolls | script.js:116-124 | the nav's classes after a series of scroll events: classes other than the two shadows untouched, and after at least one event exactly one shadow present |
| PageEffects.NavClassesLatestWins | script.js:116-124 | a later run of the listener decides the shadow alone |
| PageEffects.ScrollsLatestWins | script.js:116-124 | after any series of scroll events the shadow is the one the last offset calls for |
| PageEffects.OnScroll | script.js:116-124 | the listener moves the nav's classes to `NavClasses` of the old ones and changes nothing else |
| PageEffects.AddFadeInAnimations | script.js:140-155 | without reduced motion every element gains `animate` with its inline style untouched; with it, classes are untouched and opacity is "1", transform "translateY(0)" |

## Left out

- Timers: the repeating `setInterval` of `startRealTimeUpdate` (script.js:67-73) and the delayed navigation of `addPageTransitions` (script.js:96-111). Both live in the browser's event loop.
- Re-initialization (main.js:9-19) starts a new interval on every route change without clearing the old one. No idempotence is claimed.
- Date parsing and the clock. `new Date(str)`, `Date.now()` and `Math.random()` are inputs. An unparsable date string gives `NaN` fields in JavaScript, and that case is not modelled.
- ElapsedTime.CalculateTimeDifference: uses exact integer division. JavaScript divides in floating point and then applies `Math.floor`. The model assumes, without proving it, that the two agree for the instants involved.
- Storage encodings: `JSON.parse`/`JSON.stringify` of the log, and `parseInt` of values the script did not write (garbage gives `NaN`, "12abc" gives 12). A malformed stored log makes `JSON.parse` throw in the middle of `initializeVisitorTracking`, after the visitor id was written; that path is not modelled. Storage quota errors are not modelled.
- ElapsedTime.UpdateTimeInfo: states that nothing is written when the element is absent. That nothing is computed either cannot be expressed in a contract.
- ImageLoading.OptimizeImageLoading and PageEffects.AddFadeInAnimations: require the elements to be distinct, which `querySelectorAll` guarantees. Listener registration is modelled as the returned set of waiting images, not as browser state. The error listener's console message is not modelled.
- `addScrollEffects` (script.js:113-126) is modelled by its listener `OnScroll`. When the page has no nav element, no listener exists and nothing happens.
- Totals, clock readings and durations are unbounded natural numbers. JavaScript's double-precision limits are not modelled: from 2^53 the `+ 1` on the total has no effect, and from 1e21 `toString` writes exponent notation that `parseInt` does not read back.
- Class lists are sets. The DOM's ordering of class tokens is not modelled.
- Cosmetic code: the injected style sheet (script.js:157-203), hover transforms (script.js:128-138), the page-enter class (script.js:205-207) and the `init` wiring (script.js:4-37).
- utils.js: thin browser wrappers, floating-point viewport and easing code, debounce and throttle. main.js: wiring to modules that are not part of this model.
- Concurrent tabs racing on local storage: the model has a single execution context.
