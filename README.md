# Wordsmiths Arena registration front end — a Dafny model

This project models the client-side core of the Wordsmiths Arena event site:

- the **registration dialog**, a five-step wizard (personal details, category,
  review, payment, confirmation) that keeps one draft, resets it whenever it is
  opened, hands the draft to its `onRegister` callback at the payment step and
  then shows a pre-filled WhatsApp payment-proof message;
- the **roster mirror**: the page's local `players` list, which is only ever
  replaced as a whole by a fetch of the remote `players` table (on load and on
  every change notification), and the write intents the page sends to that
  table — the insert from the dialog (always `pending`), the admin status
  toggle and the confirmed delete — none of which touch the local list;
- the **admin panel's session gate**: its `isAuthenticated` flag mirrors whether
  the identity provider reports a session, and the player table with its
  mutation buttons exists only while it is set;
- the roster page's **search** (name or category, case-insensitive);
- the static **Registered Players** page: its name search, the per-category
  tally built by `reduce`, and the occupancy percentage of the 24 seats;
- the **countdown**: the split of the remaining milliseconds into days, hours,
  minutes and seconds, the "event has passed" test, and the two-digit
  rendering of each unit.

Modules: `Registration` (the dialog, `registration.dfy`), `Roster` (records,
the remote table, the page, the admin panel, the roster search, `roster.dfy`),
`RegisteredPlayers` (`registered_players.dfy`), `Countdown`
(`countdown.dfy`), and three helper modules: `Text` (ASCII lowercasing,
`includes`, decimal numerals, `padStart`), `Filtering` (`Array.prototype.filter`
and its order/multiplicity facts) and `Wrappers` (`Option`).

The remote table is a `Roster.Store` object holding its records newest first.
What the network would decide — whether a query returns data, whether a write
is rejected and with which message, the id and timestamp the table assigns —
is an input of the operation that asks for it, so every outcome is covered.
The locale rendering of the timestamp is a function parameter `format`. The
event instant and the clock enter the countdown only through their difference,
an integer number of milliseconds.

The model follows the code where it differs from the system's intended
design: the dialog's `handleRegister` does not wait for the insert and moves
to step 5 unconditionally, so the dialog reaches the confirmation step even
when the insert is later rejected (the intended design keeps it at step 4). A
rejected insert only raises an alert and keeps the page's view.

## Model

| member | source | states |
|---|---|---|
| Registration.NextStep | App.tsx:66 | `nextStep` moves one step forward and stays at 5 once there; never beyond 5 |
| Registration.PrevStep | App.tsx:67 | `prevStep` moves one step back and stays at 1 once there; never below 1 |
| Registration.StepsStayInRange | App.tsx:64-67 | from any step in [1,5] both moves stay in [1,5]; 5 is fixed by `nextStep`, 1 by `prevStep` |
| Registration.OnlyEmptyNameBlocks | App.tsx:285 | the primary button is disabled iff the step is 1 and the name is empty; steps 2-5 are never blocked |
| Registration.PrimaryDisabled | App.tsx:285 | the primary button can be disabled only at step 1 and only with an empty name |
| Registration.BackOffered | App.tsx:276 | Back is offered only where `prevStep` really moves one step back and lands on a step in [1,3] |
| Registration.RegistrationModal.constructor | App.tsx:39-46 | before the first opening: closed, step 1, empty fields and the category `Masters (1500+ Rating)` |
| Registration.RegistrationModal.SetOpen | App.tsx:50-56 | opening a closed dialog resets step to 1, clears the fields to empty with category `Masters (1400+ Rating)` and clears `copied`, whatever came before; any other change of `isOpen` keeps step and draft |
| Registration.RegistrationModal.EditName | App.tsx:110 | typing the name at step 1 replaces only the name |
| Registration.RegistrationModal.EditEmail | App.tsx:120 | typing the email at step 1 replaces only the email |
| Registration.RegistrationModal.EditPhone | App.tsx:130 | typing the phone at step 1 replaces only the phone |
| Registration.RegistrationModal.SelectCategory | App.tsx:145-153 | choosing one of the three offered categories at step 2 replaces only the category |
| Registration.RegistrationModal.EditRatingId | App.tsx:160 | typing the rating id at step 2 replaces only the rating id |
| Registration.RegistrationModal.CopyAccountNumber | App.tsx:58-62 | the copy button on the payment step sets `copied` |
| Registration.RegistrationModal.Back | App.tsx:276-278 | Back exists only when 1 < step < 5 and lowers the step by exactly one |
| Registration.RegistrationModal.Primary | App.tsx:284-286 | disabled: nothing changes; step 4: `onRegister` is called once with the current draft and the step becomes 5; step 5: only `onClose`; steps 1-3: `nextStep`; the draft is never changed, the step stays in [1,5], and every step past 1 (so the registered draft) carries a non-empty name |
| Registration.PressTwiceAtPayment | App.tsx:69-72 | two presses from the payment step give one registration with the draft, then a close: no second `onRegister` |
| Registration.RegisterFromScratch | App.tsx:50-72 | opening, typing a name and pressing forward four times registers exactly once, with the typed name, empty other fields and the default category, and ends at step 5 |
| Registration.ProofMessage | App.tsx:262 | the payment-proof text is the header, the name, the category label, the category and the fee footer, with the name and the category at their fixed places |
| Registration.ProofMessageMentions | App.tsx:262 | the payment-proof text contains the entrant's name, the category and the fee `₦10,000` |
| Registration.ProofMessageDetermines | App.tsx:262 | the payment-proof text determines the name and category it was built from (for a name without a line break) |
| Roster.ToPlayer | App.tsx:537-544 | one fetched record becomes a player with the same id and status, `rating_id` as `ratingId`, and the formatted `registered_at` |
| Roster.MapRows | App.tsx:536-545 | the fetched records map to players of the same number and order, with id, name, email, phone, category and status copied, `rating_id` becoming `ratingId` and `registeredAt` the formatted instant |
| Roster.InsertPayload | App.tsx:588-597 | the insert payload's status is always `pending` |
| Roster.InsertPayloadRoundTrip | App.tsx:589-596 | the payload copies name, email, phone and category verbatim and sends `ratingId` as `rating_id`: the draft is recoverable from it |
| Roster.ToggleTarget | App.tsx:415 | the toggle asks for a status different from the shown one (`confirmed` for `pending`, `pending` otherwise) |
| Roster.ToggleTwice | App.tsx:415 | toggling twice gives back the original status |
| Roster.SetStatus | App.tsx:613-616 | an update by id changes the status of exactly the records with that id and nothing else |
| Roster.DeleteId | App.tsx:621-624 | a delete by id removes exactly the records with that id and keeps the order and the multiplicity of every other record |
| Roster.Store.Query | App.tsx:529-532 | the query answers the table's records, or no data when it fails |
| Roster.Store.Insert | App.tsx:586-597 | an accepted insert adds the created record in front (newest first); a rejected one changes nothing and reports the rejection |
| Roster.Store.Update | App.tsx:613-616 | an accepted update applies `SetStatus`; a rejected one changes nothing |
| Roster.Store.Delete | App.tsx:621-624 | an accepted delete applies `DeleteId`; a rejected one changes nothing |
| Roster.App.constructor | App.tsx:519-525 | the page starts on the landing view with an empty list |
| Roster.App.ApplyFetch | App.tsx:534-547 | data replaces the list wholesale by its mapping; no data leaves the list unchanged |
| Roster.App.FetchPlayers | App.tsx:528-548 | after a successful fetch the list is the mapping of the table's current records; after a failed one it is unchanged |
| Roster.App.OnPlayersChanged | App.tsx:553-557 | any change notification refetches, so after it the list is the mapping of the table's records (or unchanged if the query fails) |
| Roster.App.HandleRegister | App.tsx:585-610 | sends the pending insert payload; on a rejection alerts `Error registering: <message>` and keeps the view; on success switches to the roster view; the local list is untouched in both cases |
| Roster.App.UpdatePlayerStatus | App.tsx:612-617 | forwards a status update by id to the table; the page's state is untouched |
| Roster.App.DeletePlayer | App.tsx:619-626 | forwards a delete by id only when the user confirmed; otherwise the table is unchanged |
| Roster.NotifiedTwice | App.tsx:555-557 | repeated notifications converge: after a successful refetch and any second one, the list is the mapping of the table's records |
| Roster.RegisterThenRefresh | App.tsx:604-606 | an accepted insert followed by the notified refetch gives one more player, in front, with status `pending` and the draft's fields, the others unchanged |
| Roster.ToggleConfirmsOnlyThatPlayer | App.tsx:414-416 | toggling a pending player with a unique id confirms that record and leaves every other record unchanged |
| Roster.AdminPanel.constructor | App.tsx:312 | the panel starts unauthenticated |
| Roster.AdminPanel.SetOpen | App.tsx:300 | the owner's `isOpen` property opens or closes the panel and keeps the session flag |
| Roster.AdminPanel.ObserveSession | App.tsx:318-325 | on mount and on every auth change the flag becomes exactly "a session is present" |
| Roster.AdminPanel.Login | App.tsx:330-342 | a rejected sign-in alerts `Login failed: <message>`; the flag itself is only set by session reports |
| Roster.AdminPanel.TableRows | App.tsx:348-354 | while open and authenticated the table lists every player; closed, nothing is rendered, and unauthenticated, the login form is shown: no row either way |
| Roster.AdminPanel.ToggleStatus | App.tsx:414-415 | the toggle of a listed player, available only while open and authenticated, sends the opposite of its shown status |
| Roster.AdminPanel.Remove | App.tsx:421-422 | the remove button of a listed player, available only while open and authenticated, deletes it only after confirmation |
| Roster.ButtonsNeedSession | App.tsx:348-430 | a player's mutation buttons exist only for a listed player and only while the panel is open and authenticated |
| Roster.RosterMatches | App.tsx:445-448 | a player matches the roster search on its lowercased name or category; the empty term matches every player |
| Roster.FilterRoster | App.tsx:445-448 | the roster search is an order-preserving subsequence keeping exactly the players whose lowercased name or category contains the lowercased term, each as often as it occurs |
| Roster.EmptyRosterSearchKeepsAll | App.tsx:445-448 | an empty search term keeps every player |
| RegisteredPlayers.FilterByName | components/RegisteredPlayers.tsx:33-35 | the search is an order-preserving subsequence keeping exactly the entrants whose lowercased name contains the lowercased term, each as often as it occurs |
| RegisteredPlayers.EmptySearchKeepsAll | components/RegisteredPlayers.tsx:33-35 | an empty search keeps every entrant |
| RegisteredPlayers.NoMatchesNoticeShown | components/RegisteredPlayers.tsx:133 | the "No players found" notice shows iff the term is non-empty and no entrant's name matches |
| RegisteredPlayers.CategoryOf | components/RegisteredPlayers.tsx:39 | an empty category is tallied as `Unknown`, a non-empty one as itself; the tallied category is never empty |
| RegisteredPlayers.Tally | components/RegisteredPlayers.tsx:38-42 | the accumulated dictionary never has the empty key and always has the latest entrant's category |
| RegisteredPlayers.KeyOrder | components/RegisteredPlayers.tsx:38-44 | the dictionary's keys in insertion order are non-empty and no more than the entrants |
| RegisteredPlayers.TallyFacts | components/RegisteredPlayers.tsx:38-42 | the accumulated dictionary maps each category to the number of its entrants (at least one), its keys in insertion order are distinct, and absent categories have no entrants |
| RegisteredPlayers.CategoryStats | components/RegisteredPlayers.tsx:37-45 | the one-pass in-place tally followed by `Object.entries` yields the entries of the finished tally in first-occurrence order (for keys that are neither integer-like nor inherited property names) |
| RegisteredPlayers.CategoryStatsSum | components/RegisteredPlayers.tsx:37-45 | the counts of the category entries sum to the number of entrants |
| RegisteredPlayers.CategoryStatsFacts | components/RegisteredPlayers.tsx:37-45 | the entries name distinct non-empty categories, each count equals the number of entrants in that category and is at least one, and every entrant's category appears |
| RegisteredPlayers.Occupancy | components/RegisteredPlayers.tsx:82 | the occupancy is `count / 24 × 100` (24 being `Capacity`) rounded to the nearest integer with halves rounded up |
| RegisteredPlayers.ListedOccupancy | components/RegisteredPlayers.tsx:5-28 | the page lists 22 entrants, so it shows 92% occupancy |
| Countdown.CalculateTimeLeft | components/Countdown.tsx:14-28 | a non-positive difference gives (stores) all zeros; a positive one gives hours < 24, minutes < 60, seconds < 60 and units that add up to the difference less its sub-second remainder |
| Countdown.Recomposition | components/Countdown.tsx:17-23 | days·86400000 + hours·3600000 + minutes·60000 + seconds·1000 ≤ d < that sum + 1000 |
| Countdown.DecompositionUnique | components/Countdown.tsx:17-23 | the split is the only normalized one within a second of the difference |
| Countdown.EventHasPassed | components/Countdown.tsx:46 | the event has passed exactly when the difference is not positive (the component then shows "Event In Progress" instead of the units), and then the stored time left is all zeros; from one second before the start it has not passed |
| Countdown.PassedMeansZero | components/Countdown.tsx:45-68 | in the last second before the start the event has not passed and the units show all zeros; from one second before the start the units are not all zero |
| Countdown.TimeUnitText | components/Countdown.tsx:39 | a rendered unit has at least two characters, exactly two with a leading `0` below 10 |
| Countdown.TimeUnitTextFacts | components/Countdown.tsx:39 | the padded unit has length max(2, digits), gains one leading `0` exactly when the value is below 10, starts with `0` exactly then, and still denotes the value |

## Left out

- Rendering (JSX, styling, icons, animations, progress-bar width, button labels): presentation only.
- `components/RevealOnScroll.tsx` and `components/ScrabbleTile.tsx`: visual effects with no state logic of the core; `constants.tsx` and `types.ts` are static data and types (the event date enters the countdown as the difference).
- The Supabase client, the realtime channel and its teardown (`unsubscribe`), `signInWithPassword`, `signOut`, `getSession` and `onAuthStateChange`: foreign I/O, replaced by the `Store` object and by inputs for every outcome. `handleLogout` is represented only by the session report that follows it (`ObserveSession(false)`).
- The table's ordering by `registered_at`: the store keeps its records newest first by inserting in front; sorting by timestamp is the table's business.
- Asynchrony: overlapping fetches, the un-awaited `onRegister`, the admin panel's `loading` flag and React state batching. Every operation is one sequential step.
- `toLocaleString('en-NG', …)` and `registeredAt.split(',')[0]`: locale library behaviour; the rendering is the `format` parameter.
- `encodeURIComponent` and the `wa.me` link around the payment-proof text: a library call; only the raw text is modelled.
- Roster.RosterMatches: lowercasing changes only ASCII `A`-`Z`, not the full Unicode case mapping of `toLowerCase`; the same holds for RegisteredPlayers.NameMatches.
- The clipboard write, the 2-second reset of `copied`, `alert`/`confirm` dialogs (confirmation is a boolean input, alerts are returned messages), scroll tracking, `window.scrollTo`, and the `setInterval` tick that stores `calculateTimeLeft`'s result in state.
- RegisteredPlayers.CategoryStats: the accumulator is a plain map, not a JavaScript object. `Object.entries` would list integer-like keys first in ascending order, and for inherited property names (`constructor`, `toString`) `acc[category] || 0` would read the inherited value, while `__proto__` would not become a key; no listed category is of these kinds, and such categories are not modelled.
- Countdown.CalculateTimeLeft: the difference is whole milliseconds, where JavaScript's floating-point `Math.floor` of the quotients equals integer division; fractional milliseconds are not modelled.
- Countdown.EventHasPassed: the render-time test and the last tick's `calculateTimeLeft` each read the clock separately; the model gives both the same difference, so a render between a tick and the start instant is not modelled.
- RegisteredPlayers.Occupancy: `(REGISTERED_PLAYERS.length / 24) * 100` is computed in floating point; the model rounds the exact quotient in integers. Nothing is lost: the exact value 25n/6 has a fractional part that is a multiple of 1/6, so a rounding error cannot carry it across a half, and it is exactly a half only when n/24 is an odd multiple of 1/8, which floating point represents exactly.
- Roster.Status: the status column is the two values its type declares; any other string coming from the table is not modelled.
- The navigation buttons that switch between the landing and roster views (`setView`) other than the switch after a successful registration: plain assignments with nothing to prove.
