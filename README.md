# Avalanche waiting room, modelled in Dafny

Avalanche is a virtual waiting room: each contended resource has a *line*
that hands out sequential tickets ("turns") and keeps an admission counter
("next in"). A client may use the resource once its turn is at most the
admission counter. Clients that wait keep a websocket open.
`lines/line.go` can group such connections into fixed-size *pools*, each with
a broadcaster that pushes the admission counter to its members. In `main.go`
as written, however, nothing calls `Line.AppendTurnConn`: the websocket
handler writes `NextIn()` to its own connection every second. So the pools
of a running server stay empty and every broadcaster loops over no
connection. The model still covers the pool logic, because `lines/line.go`
implements it.

The model covers:

- `lines/line.go`, as the module `Lines`:
  - the `TurnsPool` class: a connection slice and its capacity;
  - the `Line` class: the `uint32` counters `nextTurn` and `nextIn`, the
    `pools` slice with its nil placeholder at index 0, and `currentPool`.
- `main.go`, as the module `Server`:
  - the get-or-create cache of lines, as a class with a map field;
  - the `/turn`, `/token` and `/release` handlers.
- The library calls the handlers rely on:
  - `Text` models `fmt.Sprint` of an unsigned number,
    `strconv.ParseUint(s, 10, 32)` and `strings.Split(s, sep)[0]`;
  - `GoTypes` models `uint32` and its silent wrap-around at 2^32.

State that Go changes in place is kept in classes. Their methods carry
`modifies` clauses and state the whole new state. A `Line` also holds a
ghost view:

- `Subscribers`: every connection appended, in order;
- `Batches`: the connection lists of the real pools;
- `Repr`: the pool objects.

`Line.Valid()` ties that view to the objects. It says that the pools are
exactly what subscribing `Subscribers` to a fresh line produces
(`Subscribed`), and that they are filled in order (`FilledInOrder`). The
decisions taken by the handlers are pure functions (`TurnResponse`,
`TokenResponse`). The handler methods are proved to answer as those
functions do.

Facts of the code that shape the model:

- `nextTurn` and `nextIn` are `uint32` (lines/line.go:36, 40) and `++`
  wraps them silently. A fresh line therefore hands out turn 1 again on call
  2^32 + 1 (`TurnsRepeatAfterWrap`).
- `ReleaseTurn` takes no argument (lines/line.go:85): any release admits one
  more turn.
- Every pool is created with capacity `ConnsCapacity` = 1 (lines/line.go:12, 21).
- The cache of lines is a plain map that no lock guards (main.go:19-28).

## Model

| member | source | states |
|---|---|---|
| `GoTypes.Inc32` | lines/line.go:68 | `x++` on a `uint32` yields `(x + 1) mod 2^32` |
| `GoTypes.AdvanceNoWrap` | lines/line.go:85-92 | short of wrap-around, `k` increments add exactly `k`, so after K releases a fresh line's `nextIn` is 1 + K |
| `GoTypes.AdvanceWraps` | lines/line.go:36-40 | 2^32 increments from 0 give 0 and one more gives 1: the counters wrap silently |
| `Text.Decimal` | main.go:51 | the decimal rendering of a turn is a non-empty digit string that denotes the number and has no leading zero: it starts with '0' only when it is exactly "0" |
| `Text.ParseDecimal` | main.go:82 | every `uint32` turn in decimal parses back to itself |
| `Text.ParseDecimalOutOfRange` | main.go:82 | a decimal number of 2^32 or more is a parse failure |
| `Text.ParseRejectsNonDigit` | main.go:82 | a value with a non-digit character is a parse failure |
| `Text.CanonicalDigits` | main.go:82 | every non-empty digit string is some leading zeros followed by the decimal rendering of its value |
| `Text.ParseUint32` | main.go:82 | whatever the parse accepts is leading zeros followed by the decimal rendering of the value it yields |
| `Text.ParseZerosDecimal` | main.go:82 | conversely, any number of leading zeros followed by a 32-bit value in decimal parses to that value: the parse inverts `Decimal` and accepts leading zeros |
| `Text.BeforeFirst` | main.go:87 | the first piece of the split is the prefix of the value before the first occurrence of the separator, or the whole value when none occurs |
| `Text.BeforeFirstAfterDigits` | main.go:87 | splitting `digits + "%2C" + tail` at `"%2C"` yields exactly the digits |
| `Text.BeforeFirstDigitsOnly` | main.go:87 | splitting a pure digit string at `"%2C"` leaves it whole |
| `Lines.IssuedTurnAt` | lines/line.go:66-73 | the k-th of successive `GetNextTurn` results is the ticket counter advanced k + 1 times |
| `Lines.FreshLineTurnAt` | lines/line.go:52 | on a fresh line call k + 1 returns k + 1, and call 2^32 returns 0 |
| `Lines.FreshLineTurnsContiguous` | lines/line.go:66-73 | fewer than 2^32 calls on a fresh line return exactly 1, 2, ..., N |
| `Lines.FreshLineTurnsDistinct` | lines/line.go:66-73 | the first 2^32 turns of a fresh line are pairwise distinct |
| `Lines.TurnsRepeatAfterWrap` | lines/line.go:36 | call 2^32 + 1 on a fresh line returns turn 1 again, the same as the first call |
| `Lines.GetNextTurns` | lines/line.go:66-73 | n successive `GetNextTurn` calls return `IssuedTurns` of the starting counter and leave the counter advanced n times |
| `Lines.ReleaseTurns` | lines/line.go:85-92 | k successive `ReleaseTurn` calls return the admission counter advanced 1, ..., k times and leave it advanced k times |
| `Lines.AppendConn` | lines/line.go:94-103 | defines the pool contents after one append: a new pool holding just the connection when the current one is full, else the connection added to the current pool |
| `Lines.TurnsPool.IsFull` | lines/line.go:29-31 | defines a full pool: its length equals its capacity |
| `Lines.AppendConnShape` | lines/line.go:94-103 | appending a connection keeps every earlier pool, adds one pool exactly when the current one was full, and puts the connection last in the last pool |
| `Lines.AppendConnFlatten` | lines/line.go:94-103 | appending adds exactly that connection, at the end of the connection order |
| `Lines.AppendConnFilledInOrder` | lines/line.go:94-103 | appending keeps every pool within capacity and every pool before the current one full |
| `Lines.SubscribedFlatten` | lines/line.go:94-103 | the pools hold every subscribed connection exactly once, in order, so their total size is the number of appends |
| `Lines.SubscribedFilledInOrder` | lines/line.go:94-103 | whatever is subscribed, the pools are filled first-created-first-filled |
| `Lines.SubscribedOnePerPool` | lines/line.go:11-13 | with one connection per pool, n >= 1 subscriptions give exactly n pools, the i-th holding only the i-th connection |
| `Lines.TurnsPool.constructor` | lines/line.go:19-23 | a fresh pool is empty, has capacity `ConnsCapacity` = 1 and is not full |
| `Lines.TurnsPool.AppendTurnConn` | lines/line.go:25-27 | the connection is added at the end; with room left the capacity stays, and the length never exceeds the capacity |
| `Lines.Line.constructor` | lines/line.go:48-62 | a new line has `nextTurn` 0 and `nextIn` 1, and `pools` holds the nil placeholder then one empty current pool |
| `Lines.Line.GetNextTurn` | lines/line.go:66-73 | `nextTurn` advances by one (mod 2^32) and the new value is returned; no other field changes |
| `Lines.Line.NextIn` | lines/line.go:75-77 | returns `nextIn` and changes nothing |
| `Lines.Line.NewTurnsPool` | lines/line.go:79-83 | exactly one new empty pool is appended to `pools` and becomes current; earlier entries, the placeholder included, are unchanged |
| `Lines.Line.ReleaseTurn` | lines/line.go:85-92 | `nextIn` advances by one (mod 2^32) and the new value is returned; no other field changes |
| `Lines.Line.AppendTurnConn` | lines/line.go:94-108 | a pool is created, reported as `created`, iff the current pool was full; the connection ends the current pool; pools only grow at the end; fill order and the link to `Subscribed` are kept |
| `Server.TurnResponse` | main.go:48-62 | defines the `/turn` answer: the cookie's value when the signed cookie is present, otherwise the fresh turn in decimal, set in both turn cookies |
| `Server.TokenResponse` | main.go:73-111 | defines the `/token` decision: 400 without the cookie; granted with the prefix before "%2C" when the value does not parse; 400 while the parsed turn is above `nextIn`; else granted with the cookie rewritten to value + ",IN" |
| `Server.TurnReusesCookie` | main.go:48-57 | a `/turn` request that carries the signed cookie gets its value back, whatever the line's counter |
| `Server.TokenWithoutCookie` | main.go:73-80 | `/token` without the signed cookie is 400 "No turn requested." |
| `Server.TokenGrantedIff` | main.go:91-111 | for a parsed turn, access is granted iff turn <= `nextIn`, with the cookie rewritten to value + ",IN"; otherwise 400 "Not your turn yet..." |
| `Server.TokenIgnoresLine` | main.go:82-90 | an absent or unparsable cookie gets the same answer whatever the admission counter |
| `Server.TokenGrantStable` | main.go:97 | as `nextIn` grows, a granted request stays granted with the same answer |
| `Server.IssuedTurnAdmittedIff` | main.go:51-54 | the signed cookie `/turn` sets holds the turn in decimal, and `/token` grants it iff the turn is at most `nextIn` |
| `Server.TokenAfterDelivery` | main.go:82-90 | a delivered cookie "N%2CIN" does not parse and is granted again with turn N, without reading the line and without setting a cookie |
| `Server.TokenOutOfRangeGranted` | main.go:82-90 | a decimal cookie of 2^32 or more is granted without reading the line |
| `Server.Server.constructor` | main.go:19 | the cache starts empty |
| `Server.Server.GetCachedLine` | main.go:21-28 | a cached resource gets its stored line with the cache unchanged; a missing one gets a fresh line (counters 0 and 1) stored under that key only; the cache only grows |
| `Server.Server.PostTurn` | main.go:39-63 | the resource's line exists afterwards; one turn is taken only when the signed cookie is absent; only the line's `nextTurn` may change, so its pools, `nextIn` and validity are kept; a line created for a missing resource is valid, has no subscribers and counters 0 (or 1 once a turn is taken) and 1; the answer is `TurnResponse` |
| `Server.Server.GetToken` | main.go:70-112 | the answer is `TokenResponse`; the line is looked up, and created if missing, only for a parsable cookie, and it is only read; a line created there is valid, has no subscribers and counters 0 and 1 |
| `Server.Server.GetRelease` | main.go:114-122 | the resource's line exists afterwards, its `nextIn` advanced by one and nothing else of it changed, and the answer carries the new value; a line created for a missing resource is valid and has no subscribers |

## Left out

- `broadcastNextIn` (lines/line.go:110-118) and `wshandler` (main.go:132-150):
  endless loops that sleep and write to websockets. This is timing and I/O.
  `wshandler` never calls `Line.AppendTurnConn`; it writes `NextIn()` to its
  own connection. So in the program as written no connection reaches a pool,
  and each `broadcastNextIn` iterates over an empty slice. The model keeps
  the pool operations of `lines/line.go` on their own. Where a broadcaster
  would be started, `Line.AppendTurnConn` returns `created`, and the `Line`
  constructor always creates the first pool.
- The mutexes and the unlocked read in `NextIn`. Every operation is modelled
  as running alone, so data races are not modelled.
- Gin: routing, the `GET /lines/:resource` page, JSON and HTML rendering,
  `r.Run`, the websocket upgrader, and the path, max-age and HttpOnly
  arguments of `SetCookie`. The cookie is modelled as an optional string
  value. The URL-escaping that turns a stored "N,IN" into "N%2CIN" is not
  modelled; `TokenAfterDelivery` states the decision on the escaped form.
- `fmt.Printf` logging.
- Websocket connections are opaque objects (`Conn`); only their identity and
  position in the pools are modelled.
- `Lines.TurnsPool.AppendTurnConn`: on a full slice, Go's `append` grows the
  capacity with runtime-specific rounding. The model doubles it (or uses the
  needed length if that is larger), so it states only "at least the new
  length". The line never appends to a full pool, so this path is never
  reached from `Line`.
