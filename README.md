# Raffle drawing session (SpinWheel) in Dafny

This project models the state logic of the `SpinWheel` raffle screen. The
screen keeps a pool of undrawn tickets. The tickets are the numbers 10001 to
20000, each written as a zero-padded five-character string. A spin runs an
animation and then draws one ticket at random without replacement. The winner
is recorded at the front of a history, newest first. The operator can reset
the session, and can export or import the history together with the
remaining pool.

`src/App.jsx` holds a single component, `SpinWheel`. The modules split its
logic by concern:

- `Wrappers` (wrappers.dfy): the `Option` datatype.
- `Pool` (pool.dfy): the index filter that removes the drawn ticket
  (`numbers.filter((_, idx) => idx !== winnerIndex)`). Also duplicate-freedom,
  and `Math.floor(Math.random() * n)` as `RandomIndex`.
- `Tickets` (tickets.dfy): `toString`, `padStart(5, '0')`, the initial pool,
  and the `for` loop that fills it (`BuildPool`).
- `Session` (session.dfy): the session as a state machine over a `State`
  value. It has the spin guard, one animation frame (a flicker or the draw
  completion), reset, export and import, and the lemmas about them.
- `App` (app.dfy): the class `SpinWheel`. It holds the fields the component
  updates (`numbers`, `history`, `isSpinning`, `displayNumber`, `winner`).
  Its event handlers are proved to perform the matching `Session`
  transition on `Model()`.

Inputs from the environment become parameters:

- The value of `Math.random()` is a real `rand` in [0, 1).
- The milliseconds since the spin started are an integer `elapsed`.
- The `toLocaleString` timestamp is an opaque string `time`.
- A loaded file arrives already parsed, as a `Document`. It is either
  `Malformed` or `Parsed` with two optional fields. A field is `None` when it
  is missing or falsy, and `Some` otherwise. An empty array is truthy in
  JavaScript, so a present empty array is `Some([])` and still replaces the
  state.

## Model

| member | source | states |
|---|---|---|
| Tickets.NatToDecimal | src/App.jsx:9 | `toString` of a non-negative integer gives a non-empty string of decimal digits with no leading zero |
| Tickets.DecimalRoundTrip | src/App.jsx:9 | reading the decimal string back gives the number again, so distinct numbers give distinct strings |
| Tickets.DecimalLength | src/App.jsx:9 | a number with k+1 digits (10^k <= n < 10^(k+1)) prints as exactly k+1 characters |
| Tickets.PadStart | src/App.jsx:9 | `padStart` gives the longer of `|s|` and the width, ends with `s`, and is filled with the pad character in front |
| Tickets.TicketFacts | src/App.jsx:9 | for a five-digit number, `padStart(5, '0')` adds nothing: the ticket is its five-character decimal with that value |
| Tickets.Ticket | src/App.jsx:9 | `i.toString().padStart(5, '0')` is a decimal string of at least five characters; TicketFacts gives its exact value for five-digit numbers |
| Tickets.InitialPool | src/App.jsx:6-12 | the starting pool has 10000 entries; InitialPoolValues, InitialPoolEnds and InitialPoolAscending give its contents |
| Tickets.TicketRangeValues | src/App.jsx:8-9 | every ticket of a range of five-digit numbers is a five-character decimal string with the value of its number |
| Tickets.BuildPool | src/App.jsx:7-10 | the fill loop (also used at lines 118-119) yields exactly the initial pool |
| Tickets.InitialPoolValues | src/App.jsx:6-12 | the initial pool has 10000 entries; entry k is a five-character decimal string with value 10001 + k |
| Tickets.InitialPoolEnds | src/App.jsx:8 | the first ticket is "10001" and the last is "20000" |
| Tickets.InitialPoolAscending | src/App.jsx:6-12 | the initial pool is strictly ascending by value and has no duplicates |
| Pool.FilterIndex | src/App.jsx:109 | the index filter never lengthens the pool; FilterIndexCut and FilterIndexMiss give its result |
| Pool.RemoveAt | src/App.jsx:109 | `numbers.filter((_, idx) => idx !== winnerIndex)` cuts a valid index out of the pool (prefix plus suffix) and keeps the pool whole for any other index |
| Pool.RemoveAtIsSlice | src/App.jsx:109 | filtering out a valid index equals the prefix before it followed by the suffix after it |
| Pool.RemoveAtOutOfRange | src/App.jsx:109 | filtering out an index outside the pool keeps the pool unchanged |
| Pool.RemoveAtFacts | src/App.jsx:109 | the filtered pool is one shorter; the elements keep their order; exactly one copy of the winner leaves the multiset |
| Pool.RemoveAtDistinct | src/App.jsx:105-109 | on a duplicate-free pool the winner is absent afterwards, the rest stays duplicate-free, and nothing new appears |
| Pool.RandomIndex | src/App.jsx:100-104 | `Math.floor(Math.random() * numbers.length)` is an index in [0, length) of a non-empty pool |
| Pool.RandomIndexReachesEvery | src/App.jsx:104 | every index of the pool is the result for some random fraction |
| Session.Initial | src/App.jsx:6-17 | the opening state allows a spin, holds the 10000-ticket pool, an empty history and no winner |
| Session.CanSpin | src/App.jsx:81 | the guard lets a spin start only with a non-empty pool and no spin running; SpinRequest and StartSpin show it decides the no-op |
| Session.SpinRequest | src/App.jsx:81-83 | a spin while spinning or with an empty pool changes nothing; otherwise only `isSpinning` becomes true and the winner is cleared |
| Session.StartSpin | src/App.jsx:80-114 | the handler changes nothing when the guard refuses; otherwise it starts the spin, clears the winner and (line 114) shows a pool ticket; pool and history stay as they were |
| Session.Progress | src/App.jsx:93-94 | the progress is at most 1, and below 1 exactly when fewer than 3000 ms have elapsed |
| Session.FlickerFrame | src/App.jsx:99-101 | a flicker frame shows a ticket of the pool and leaves the pool, history, winner and `isSpinning` alone |
| Session.CompleteDraw | src/App.jsx:104-110 | completion shrinks the pool by one and moves the winner out of it (multiset); it prepends the winner to history, older entries unchanged; it sets the display and winner and ends the spin |
| Session.CompleteDrawCutsWinner | src/App.jsx:104-109 | the winner is the element at the random index, and the new pool is the old one with that position cut out |
| Session.CompleteDrawWithoutReplacement | src/App.jsx:105-109 | from a duplicate-free pool, the winner came from the pool, it is gone afterwards, and the pool stays duplicate-free |
| Session.AnimationFrame | src/App.jsx:92-113 | before 3000 ms a frame leaves pool, history and spin flag alone; from 3000 ms on it removes one ticket and ends the spin |
| Session.FlickerDoesNotAffectDraw | src/App.jsx:99-110 | the flicker frames of a spin do not change its outcome |
| Session.FlickerFrames | src/App.jsx:99-102 | any number of flicker frames leave pool, history, winner and spin flag alone and show a pool ticket |
| Session.FlickersDoNotAffectDraw | src/App.jsx:99-110 | however many flicker frames a spin shows, the completed draw is the same |
| Session.Reset | src/App.jsx:117-125 | reset gives a 10000-ticket pool, an empty history and no winner and keeps the spin flag; ResetRestoresFullPool and ResetIdempotent give the rest |
| Session.ResetRestoresFullPool | src/App.jsx:117-121 | whatever the prior state, reset gives the initial pool of 10000 distinct tickets (the same loop as lines 7-10) and an empty history |
| Session.ResetIdempotent | src/App.jsx:117-125 | resetting twice is resetting once; the result depends only on whether a spin runs; from an idle state it is the start state |
| Session.Export | src/App.jsx:128 | the exported document carries both the history and the remaining pool |
| Session.Import | src/App.jsx:143-149 | an import changes at most the pool and the history |
| Session.ImportRejected | src/App.jsx:147-148 | the invalid-file alert is shown exactly when the file did not parse |
| Session.ImportMalformedIsNoOp | src/App.jsx:143-149 | a malformed file is rejected and leaves the whole state as it was |
| Session.ImportReplacesPresentFields | src/App.jsx:145-146 | a present `history` replaces only the history, a present `remainingNumbers` only the pool; missing fields keep their part |
| Session.ExportImportRoundTrip | src/App.jsx:128-146 | importing an exported document restores its pool and history exactly, into any state |
| Session.ImportDoesNotValidate | src/App.jsx:145-146 | imported tickets are taken verbatim: repeats and out-of-range tickets get into the pool |
| Session.TwoSpins | src/App.jsx:80-110 | two spins from an idle duplicate-free pool remove two tickets and log two distinct winners from the pool, newest first |
| Session.SpinOutcome | src/App.jsx:80-114 | any actual spin (the handler's own first frame, any further flicker frames, the final frame) ends in DrawRound |
| Session.DrawRound | src/App.jsx:80-110 | one full spin from an idle state shrinks the pool by one and leaves no spin running |
| Session.Draws | src/App.jsx:80-110 | N spins shrink the pool by N and add N history entries in front of the untouched older ones |
| Session.DrawsAccount | src/App.jsx:104-109 | after N spins, the N new winners together with the remaining pool are a permutation of the starting pool |
| Session.DrawsWithoutReplacement | src/App.jsx:105-109 | N spins from a duplicate-free pool draw N distinct tickets; each came from the starting pool and none is left in the final pool |
| App.SpinWheel.constructor | src/App.jsx:6-17 | the screen starts with the full pool, an empty history, no spin, "10001" on display and no winner |
| App.SpinWheel.Spin | src/App.jsx:80-114 | the spin handler reports whether it started and performs `StartSpin` on the fields, running the first frame itself |
| App.SpinWheel.AnimateNumbers | src/App.jsx:92-113 | one frame callback reports whether the draw completed (from 3000 ms on) and performs `AnimationFrame` on the fields |
| App.SpinWheel.ResetNumbers | src/App.jsx:117-125 | the reset handler performs `Reset` on the fields, rebuilding the pool with the fill loop |
| App.SpinWheel.ExportHistory | src/App.jsx:127-128 | the export handler produces `Export` of the current state, and importing it changes nothing |
| App.SpinWheel.ImportHistory | src/App.jsx:143-149 | the import handler reports rejection exactly for a malformed file and performs `Import` on the fields |
| App.TwoDrawScenario | src/App.jsx:80-114 | fresh start, two spins (each with the handler's first frame, the first with one more flicker frame): 9998 tickets remain, the history is the two winners newest first, and they are two different initial tickets |

## Left out

- Audio, from `playSpinSound` and `playWinSound` (src/App.jsx:29-78). It is
  Web Audio output with timers and floating-point frequencies.
- The wheel rotation (`rotation`, `extraRotations`, the cubic ease-out and
  `setRotation`, src/App.jsx:88-97 and 124). It is floating-point and only
  visual. For the same reason `ResetNumbers` does not reset it.
- Frame scheduling. `Date.now` and `requestAnimationFrame` are replaced by
  the caller invoking `AnimateNumbers` once per later frame with the elapsed
  time. The spin handler runs the first frame itself at elapsed time 0.
  That the frames eventually reach 3000 ms is a property of the clock and is
  not modelled.
- Pool.RandomIndex works on exact reals, not IEEE doubles. The claim that
  the index is in range does not cover floating-point rounding, and the
  uniform distribution of `Math.random()` is not modelled.
- JSON text. `JSON.stringify` and `JSON.parse` are abstracted by `Document`.
  Export gives the parsed form of the file it would write. A parse failure,
  and a parsed value that makes reading its fields throw (such as `null`),
  are both `Malformed`. A truthy non-array field value cannot be expressed.
- File plumbing. This covers the Blob, object URL and anchor download
  (src/App.jsx:129-135), the file input, `FileReader` and the `alert`
  (src/App.jsx:139-142, 148). When no file is chosen, nothing happens and
  no `Document` arrives.
- The stale closure. During a spin, `animateNumbers` reads the `numbers`
  captured when the spin started, while the history update uses the latest
  history. The model reads the current pool in every frame. The two agree
  unless an import or reset lands mid-spin, which is an event-interleaving
  matter outside this sequential model.
- Disabled buttons. The spin button is disabled under the same condition
  the handler checks (src/App.jsx:198), and the export button while the
  history is empty (src/App.jsx:226). This is rendering. `Export` is
  defined for every state.
- JSX rendering and styling (src/App.jsx:154-260).
