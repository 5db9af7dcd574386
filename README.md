# Zen wooden fish — a Dafny model of the tap counter and its state

This project models the core of a browser "electronic wooden fish" (电子木鱼):
a page where every tap on a wooden fish plays a knock, adds one merit and
floats a "+1" label, and where accumulated merits are shown as a four-tier
reward breakdown (merit → bead → incense → lotus). The model covers:

- `Rewards` (`rewards.dfy`): `calculateInventory`, the greedy mixed-radix
  split of the tap count into lotus, incense, beads and merits with digit
  weights 5400, 1800, 100 and 1, and its properties: exact reconstruction,
  digit bounds, uniqueness of the breakdown, the carry rule of one more tap,
  and order preservation.
- `App` (`app.dfy`): the `App` component's state as a class `AppState` with
  the fields `language`, `totalClicks`, `strikeTrigger`, `isResting`,
  `floatingTexts`, `zenQuote`, `isLoadingQuote` and the pending rest timer.
  Its handlers are methods: pointer interaction (`resetActivityTimer`), the
  rest timer's callback, the periodic floating-text sweep, a knock, the
  language toggle, closing the quote, and the two halves of the wisdom
  request. The sweep itself is the pure function `Sweep` with its lemmas.
- `Security` (`security.dfy`): `sanitizeError` over a modelled thrown value.
- `ZenOverlay` (`zen_overlay.dfy`): the overlay's choice between nothing,
  the loading view, the content and the error notice, and the cleaning of
  the `source` and `insight` fields into displayed lines (split on `'\n'`,
  then every `'*'` removed).

Time is an explicit argument `now` (milliseconds). The single rest timer
is modelled by `restDeadline`, an optional deadline that means "a rest timer
is pending" rather than the `activityTimerRef` handle itself: an interaction
replaces it by `now + 3000`, and the timer's callback is a method
`RestTimerTick(now)` that fires only once the deadline has passed, after
which no timer is pending. (The source leaves the spent handle in the ref,
where a later `clearTimeout` on it does nothing.) So the class
invariant `Valid()` can state that the striker rests exactly when no rest
timer is pending, and that `strikeTrigger` always equals `totalClicks`.
The wisdom request is split into `StartSeekWisdom`, which returns the click
count and language the request is issued with, and `FinishSeekWisdom`, which
receives the answer as an argument.

`App.tsx` holds exactly one timer reference (App.tsx:20) and does not mount
the Zen Moment overlay (its imports are App.tsx:1-8), so there is no
three-minute idle timer and no overlay latch in the application as written;
this model follows the code and has neither. `ZenOverlay` is modelled as the
stand-alone component it is, with its visibility, loading flag and content
as inputs.

## Model

| member | source | states |
|---|---|---|
| `Rewards.CalculateInventory` | App.tsx:25-49 | the breakdown reconstructs the total exactly (merits + 100·beads + 1800·incense + 5400·lotus = total) and merits < 100, beads < 18, incense < 3 |
| `Rewards.BreakdownUnique` | App.tsx:29-47 | every inventory within the digit bounds is the breakdown of its own worth, so the breakdown is unique and `Worth` is its inverse |
| `Rewards.Increment` | App.tsx:147 | reference odometer for one more merit: keeps the digit bounds and adds exactly one to the worth |
| `Rewards.KnockCarries` | App.tsx:25-49 | the breakdown of n+1 taps is the breakdown of n taps with one merit added and carried upwards |
| `Rewards.BreakdownMonotone` | App.tsx:25-49 | n1 < n2 exactly when the breakdown of n1 is lexicographically (lotus first) below that of n2 |
| `Rewards.Examples` | App.tsx:25-49 | 0, 99, 100, 1800, 5400 and 5500 taps give the expected breakdowns (5500 is one lotus and one bead) |
| `App.Toggled` | App.tsx:81 | toggling always gives the other language |
| `App.ToggleTwice` | App.tsx:81 | toggling twice restores the language |
| `App.Sweep` | App.tsx:70 | the sweep (with the filter predicate `App.Alive`) keeps exactly the entries with now − id < 1200, with their multiplicities, and never adds entries |
| `App.SweepAppend` | App.tsx:70 | the sweep distributes over concatenation, so surviving entries keep their relative order |
| `App.SweepLater` | App.tsx:68-73 | a sweep at a later time after one at an earlier time equals the later sweep alone |
| `App.SweepIdempotent` | App.tsx:70 | sweeping twice at the same time equals sweeping once |
| `App.AppState.DisplayedInventory` | App.tsx:51 | the displayed inventory is the breakdown of `totalClicks`: it reconstructs it and keeps the digit bounds |
| `App.AppState.constructor` | App.tsx:11-20 | initial state: Chinese, zero clicks, resting with no pending timer, no floating texts, empty quote, not loading |
| `App.AppState.InteractionStart` | App.tsx:54-65 | an interaction wakes the striker and leaves exactly one pending rest timer, due 3000 ms later, replacing any earlier one; nothing else changes |
| `App.AppState.RestTimerTick` | App.tsx:62-64 | the timer fires exactly when its deadline has passed; firing sets `isResting` and clears the timer; no counter, text list or quote field changes |
| `App.AppState.SweepFloatingTexts` | App.tsx:68-73 | the text list becomes its sweep at `now`; nothing else changes |
| `App.AppState.Knock` | App.tsx:88-153 | one tap adds exactly one to `totalClicks` and `strikeTrigger`, advances the displayed inventory by the carry rule, wakes the striker with a fresh 3000 ms timer, and appends exactly one floating text with id `now`, the merit label of the current language (`App.FloatingMerit`, App.tsx:136) and a position within ±30 of the tap (80 above it), earlier entries unchanged and in order |
| `App.AppState.ToggleLanguage` | App.tsx:79-84 | switches the language and clears the quote; nothing else changes |
| `App.AppState.CloseQuote` | App.tsx:278 | clears the quote, hiding the quote panel; nothing else changes |
| `App.AppState.StartSeekWisdom` | App.tsx:155-159 | while a request is loading a new one is a no-op; otherwise the flag is set, the placeholder of the current language (`App.Meditating`, App.tsx:158) is shown and the request carries the current click count and language |
| `App.AppState.FinishSeekWisdom` | App.tsx:159-161 | the answer becomes the quote and the loading flag is cleared |
| `Security.SanitizeError` | utils/security.ts:11-14 | an Error with a non-empty message gives the fallback; a non-Error or an Error with an empty message gives "Unknown error"; the result is always one of the two |
| `Security.NoLeak` | utils/security.ts:12-13 | the result is never the error's own message unless that message equals one of the two generic ones |
| `Security.MessageIndependent` | utils/security.ts:13 | the result depends on the message only through whether it is empty |
| `ZenOverlay.Split` | components/ZenOverlay.tsx:47 | splitting on `'\n'` gives one more part than there are separators, no part holds a separator, and joining the parts gives the text back |
| `ZenOverlay.SplitJoin` | components/ZenOverlay.tsx:47 | splitting the join of a non-empty list of separator-free parts gives the parts back |
| `ZenOverlay.StripStars` | components/ZenOverlay.tsx:48 | the result holds no `'*'` and exactly the other characters of the input, with their multiplicities |
| `ZenOverlay.StripStarsAppend` | components/ZenOverlay.tsx:60 | removing asterisks distributes over concatenation, so the order of the remaining characters is kept |
| `ZenOverlay.StripEach` | components/ZenOverlay.tsx:59-60 | each line is replaced by its asterisk-free form, the number of lines unchanged |
| `ZenOverlay.JoinStripStars` | components/ZenOverlay.tsx:47-48 | stripping each part and joining with a non-asterisk separator equals stripping the joined text |
| `ZenOverlay.CleanLines` | components/ZenOverlay.tsx:47-48 | the displayed lines number one more than the `'\n'` in the field, none contains `'*'`, and joined with `'\n'` they give the field with every `'*'` removed |
| `ZenOverlay.SelectView` | components/ZenOverlay.tsx:12-79 | not visible renders nothing whatever the other inputs; visible and loading shows the loading view even with content; visible, not loading and no content shows the error notice; otherwise the quote and the cleaned source and insight lines are shown |

## Left out

- Audio playback (`services/audioService.ts`): Web Audio, cache and fetch calls with no state the core reads.
- The wisdom text generator (`services/geminiService.ts`): a network call; its answer, including its fixed fallback strings, is the argument of `FinishSeekWisdom`.
- The tilt recoil computation and `element.animate` call (App.tsx:109-129) and `navigator.vibrate` (App.tsx:150-152): floating-point animation and browser calls with no effect on the modelled state.
- App.AppState.Knock: the floating-text coordinates are exact reals; the IEEE double rounding of App.tsx:132-133 and 140-141 is not modelled, and in doubles the upper bounds `x < clientX + 30` and `y < clientY - 50` can be reached (a draw of 1 - 2^-53 with clientX = 1000 gives x = 1030).
- `Math.random` is not modelled as a source of randomness: its two draws are arguments of `Knock`, required to lie in [0, 1) as the browser guarantees.
- Real `setTimeout`, `setInterval` and `Date.now`: replaced by explicit `now` arguments and a pending deadline; the model does not schedule callbacks and does not assume the clock is monotone.
- React's batching of state updates and the closure capture of `isLoadingQuote`, `language` and `totalClicks`: each handler is one atomic step over the current state.
- JavaScript numbers are unbounded naturals here; the 2^53 precision limit of `totalClicks` and of timestamps is not modelled.
- Presentation components (`components/Striker.tsx`, `components/InventoryDisplay.tsx`, `components/FloatingText.tsx`), the translation tables beyond the two strings the handlers use, and the unused `GameState` enum.
- `ZenOverlay`'s `onClose` callback and click propagation: the overlay's closing is done by its parent, which is not part of this model.
