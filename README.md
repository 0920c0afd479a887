# Bingo draw session, modelled in Dafny

The application is a single-page bingo caller. It draws balls numbered
1 to 90 one at a time, never the same ball twice in a session. It keeps
two lists: the balls in ascending order and the balls in draw order. When
all 90 balls are out it reports a fixed message, and a reset empties
everything. A strip shows the last ten balls drawn, most recent first.

The model has four modules:

- `Session` (session.dfy): the component state of App.tsx as the class
  `DrawSession`. Its fields are `currentNumber`, `drawnNumbers`,
  `drawHistory`, `isLoading` and `error`. The draw handler is
  `GenerateBingoNumber` and the reset handler is `HandleReset`. Beside the
  class are the pure facts:
  - the candidate formula `Math.floor(Math.random() * 90) + 1`;
  - the first iteration at which the rejection loop stops;
  - the invariant `Consistent` that the two lists keep, with lemmas that
    a draw preserves it, that the pool is not empty while fewer than 90
    balls are out, and that a full session has drawn exactly 1..90.
- `Sorting` (sorting.dfy): the result of `[...prev, x].sort((a, b) => a - b)`.
  `Sort` is an insertion sort proved ascending and a permutation.
  `SortedUnique` shows that every ascending sort gives the same sequence,
  so `Sort` stands for the library sort whatever its algorithm.
- `HistoryView` (history.dfy): `numbers.slice(-10).reverse()` with the
  negative-start semantics of `slice`, and the balls the strip renders.
  The empty case renders null.
- `Wrappers` (wrappers.dfy): `Option`, for the nullable fields.

How the source's effects appear in the model:

- **Randomness.** The draw handler takes `randoms`, the successive values
  `Math.random()` returns. Each is a real in [0, 1). The rejection loop
  consumes them until a candidate is not in `drawnNumbers`. If none of the
  supplied samples gives a new ball, the source's loop is still running.
  The handler then returns `StillDrawing`, in the state the source shows
  while it loops: `isLoading` true, `error` and `currentNumber` null. The
  lemma `LoopCanEnd` shows that a single sample always exists that ends
  the loop while the pool is not empty.
- **The 500 ms delay** is one sequential step with no effect on the state.
- **A draw is atomic.** A reset cannot fall inside it.

## Model

| member | source | states |
|---|---|---|
| `Session.Candidate` | App.tsx:69 | every candidate the loop computes from a `Math.random()` value lies in 1..90 |
| `Session.SampleFor` | App.tsx:69 | every ball of 1..90 is the candidate of some value in [0, 1), so none is out of reach |
| `Session.FirstFresh` | App.tsx:67-70 | the iteration where the do-while stops: its candidate is not drawn and every earlier candidate was; None means every sample hit a drawn ball |
| `Session.LoopCanEnd` | App.tsx:59-70 | past the exhaustion check, some random value makes the loop stop at its first iteration |
| `Session.ConsistentFacts` | App.tsx:9-10 | under the invariant both lists have equal length (at most 90), hold the same balls, have no duplicates, and hold only balls in 1..90 |
| `Session.DrawKeepsConsistent` | App.tsx:72-74 | appending a fresh in-range ball to the history and sorting it into the drawn list keeps the invariant |
| `Session.PoolNotEmpty` | App.tsx:59-70 | while fewer than 90 balls are drawn, some ball of 1..90 is not drawn |
| `Session.FullSession` | App.tsx:59-60 | with 90 draws, the drawn list is exactly 1, 2, ..., 90 and the history is a permutation of it holding every ball |
| `Session.DrawSession.State` | App.tsx:8-12 | the life-cycle state the fields encode: loading is Drawing; Idle means no message, no current ball and not loading; in a valid session Exhausted carries the fixed message with all 90 balls drawn, and Result carries the last ball of the history |
| `Session.DrawSession.constructor` | App.tsx:8-12 | a new session is Idle: no current ball, both lists empty, not loading, no message |
| `Session.DrawSession.GenerateBingoNumber` | App.tsx:53-78 | keeps the invariant; at 90 balls, sets only the message, the null current ball and `isLoading` false, leaving both lists unchanged; otherwise accepts the first fresh candidate, which becomes the current ball, is appended to the history and sorted into the drawn list, with no message and not loading; when no sample is fresh, the state is still loading with both lists unchanged |
| `Session.DrawSession.Accept` | App.tsx:72-77 | the accepted ball becomes the current one, is appended to the history and sorted into the drawn list, loading ends, and the invariant holds with the session in Result |
| `Session.DrawSession.HandleReset` | App.tsx:80-88 | from any state, clears the current ball, both lists and the message, sets loading to false, and leaves the session Idle and valid |
| `Sorting.Insert` | App.tsx:73 | inserting into an ascending list gives an ascending list holding the old elements plus the new one |
| `Sorting.Sort` | App.tsx:73 | the result is ascending and a permutation of the input |
| `Sorting.SortedUnique` | App.tsx:73 | two ascending lists with the same elements are equal, so every correct numeric sort gives the same result |
| `Sorting.AppendThenSort` | App.tsx:73 | appending to an ascending list and sorting is the same as inserting in place |
| `HistoryView.Slice` | components/History.tsx:9 | `slice` with a negative start yields the last min(-start, length) elements, a contiguous suffix |
| `HistoryView.Reverse` | components/History.tsx:9 | same length, with element i being the input's element at length-1-i |
| `HistoryView.LastTen` | components/History.tsx:8-11 | length min(10, n) for an input of length n; element i is the input's element n-1-i, most recent first; a non-empty input starts with its last element; empty exactly when the input is empty |
| `HistoryView.LastTenIsReversedSuffix` | components/History.tsx:9 | the strip read backwards is the contiguous suffix of the history it came from |
| `HistoryView.Render` | components/History.tsx:9-23 | null exactly when the history is empty; otherwise min(10, n) balls, most recent first, each keyed by its value and its position, with only the first ball highlighted |
| `HistoryView.KeysDistinct` | components/History.tsx:19-21 | two balls of the strip never share a key, whatever values the history repeats |

## Left out

- Audio feedback (`initAudioContext`, `playSound`, App.tsx:13-51): Web Audio side effects with floating-point ramps and no effect on the state.
- The 500 ms `setTimeout` and React's asynchronous scheduling (App.tsx:65): a draw is one atomic step.
- Reset during a pending draw: the code has no guard against a stale result. If a reset falls in the 500 ms await, the updaters at App.tsx:73-74 still append the ball to the emptied lists, leaving both lists equal to [v] and v as the current number after the reset. A draw is atomic in the model, so this interleaving is not modelled at all.
- The `useCallback` closure over `drawnNumbers` (App.tsx:70, 78) versus the `prev =>` updaters (App.tsx:73-74): the model has one consistent state, so this React staleness is not captured.
- Which random values occur, and how uniform they are: the model only says the accepted ball is one of the pool. `Math.random()` values are exact reals, so rounding of `r * 90` in double precision is not modelled.
- `Session.DrawSession.GenerateBingoNumber`: a sample stream that never gives a fresh ball leaves the source looping forever. The model stops at the end of the supplied samples and returns the mid-loop state.
- The intermediate `isLoading` true and null message set at App.tsx:55-57: on the exhausted and the successful outcomes the model sets and clears them within the one call. The exception is `StillDrawing`, which ends with `isLoading` true, because the source's loop has not ended yet.
- `Array.prototype.sort`'s algorithm: only its result is modelled, by `Sort` and `SortedUnique`.
- React keys: the key is the string `${num}-${index}`. It is modelled as the pair (value, index), and how numbers are formatted as text is not modelled.
- `slice` copying before `reverse` (components/History.tsx:9): Dafny sequences are values, so the input history is unchanged by construction. No lemma states it.
- services/geminiService.ts: a wrapper over an external text-generation client that App.tsx does not call.
- components/LottoBall.tsx, components/LoadingSpinner.tsx and the JSX and CSS of App.tsx (lines 90-163): presentation only.
