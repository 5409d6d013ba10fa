# Orders reference service — a Dafny model of its order store and order service

The Go repository `reference-service-go` is a small orders CRUD service in a
ports-and-adapters layout. It exists in two generations. This project models
the part with real invariants:

* the **in-memory order repositories** of both generations. Each is a map from
  order ID to order with `StoreOrder`, `GetOrder` and `GetOrders`. `GetOrders`
  filters by an optional customer ID and paginates by offset and limit. The
  current repository (`internal/adapters/repository/memory`) also sorts by
  creation date and then order ID before paginating. The older one
  (`internal/outgoing/order`) does not sort.
* the **order domain** (`internal/domain/order`). It holds the country rule
  `^[A-Z]{2}$` (no normalisation) and the order-ID format
  `<13 ULID chars>-<CC>-<13 ULID chars>`, with a parser as its inverse.
* the **older order types** (`internal/core/order`). They have UUID customer IDs,
  their canonical string form, and the `-NONE-` order-ID format.
* the **order services** of both generations. `CreateOrder` builds an order
  with status `order_placed`, copies the customer and items, stores the order
  and returns it. `GetOrder` and `GetOrders` pass through to the repository.
* from the **frontend handler** (`internal/incoming/http/frontend`): the tile
  count read from the `count` query parameter, the tile slice, and the colour
  picked for a version (32-bit FNV-1a, clamped to 2^31 − 1, modulo the
  number of colours).

Layout: one module per source file, plus small shared modules.

* `Wrappers` holds `Option`, `Error` and `NoDuplicates`.
* `GoStrings` holds Go's string `<`. Go compares bytes; for valid UTF-8 that is the same as comparing code points, which is what the model does.
* `Paging` holds the pagination loop both repositories run.
* `MapIteration` describes what a visit order of a Go map is.
* `OrderSort` holds the comparator of the current repository and the sort
  that `sort.Slice` performs.
* The older `internal/core/order/order.go` is split in two. `CoreOrder` holds
  its types and ID format. `CoreService` holds its service, because that
  service needs the older repository, and the older repository in turn
  imports the order types.

The repositories and services are classes. Their methods update the order map
in place and state the new map in terms of the old one. `GetOrders` runs the
source's loops. The map walk picks an arbitrary unvisited key at each step,
just as Go's map iteration order is unspecified. Sorting is modelled as a
function. The page loop keeps the source's `continue`/`break` structure.

Readings taken where the code is inconsistent or easy to misread:

* `internal/usecase/order/service.go:24` calls `dom.GenerateOrderID()` with no
  argument. But `internal/domain/order/entity.go:43` takes a country and returns
  `(string, error)`, and the HTTP adapter expects `CreateOrder` to return
  `ErrInvalidCountry`. The model passes the request's country and propagates
  that error without storing anything.
* Only the older generation emits `-NONE-`
  (`internal/core/order/order.go:95`). The current domain rejects the empty
  country, because `""` fails `^[A-Z]{2}$`
  (`internal/domain/order/entity.go:39`, `:66-69`).
* A frontend test is named "limits count to maximum" and asks for 100 tiles.
  The code does not clamp to 20: any value outside 1..20 falls back to 3.
  The model follows the code.
* `limit` and `offset` are Go `int`s and are not checked for sign. A negative
  offset skips nothing. A limit of zero or less yields an empty page.

## Model

| member | source | states |
|---|---|---|
| `GoStrings.StringLessIrreflexive` | internal/adapters/repository/memory/order_repository.go:53 | No order ID compares below itself under Go's string `<`. |
| `GoStrings.StringLessTransitive` | internal/adapters/repository/memory/order_repository.go:53 | Go's string `<` (code-point-wise lexicographic order) is transitive. |
| `GoStrings.StringLessTotal` | internal/adapters/repository/memory/order_repository.go:53 | `StringLess` models Go's `<` on strings at :53. Of two different order IDs, one is always below the other, so the tie-break always decides. |
| `GoStrings.StringLessAsymmetric` | internal/adapters/repository/memory/order_repository.go:53 | Two IDs are never each below the other. |
| `Paging.Paginate` | internal/adapters/repository/memory/order_repository.go:58-68 | `Paging.Page` is the page taken at :58-68. The page loop (the same loop as internal/outgoing/order/repository.go:55-65) returns exactly `Page(s, limit, offset)`. That is the elements from index `max(offset, 0)` onward, at most `limit` of them. |
| `Paging.PageOfLongPrefix` | internal/adapters/repository/memory/order_repository.go:63-65 | Once `limit` elements are taken, the `break` loses nothing: the page of the prefix seen so far is the page of the whole list. |
| `Paging.PageBounds` | internal/adapters/repository/memory/order_repository.go:58-68 | A page is empty when `limit <= 0` or `offset >= n`. It has at most `limit` elements, exactly `min(limit, n - offset)` for an in-range offset, and takes nothing from outside the list. |
| `Paging.PagesFromCoverList` | internal/adapters/repository/memory/order_repository.go:58-68 | The pages of size k at offsets o, o+k, o+2k, … up to the end concatenate to exactly `s[o..]`: no gaps, nothing twice. |
| `Paging.PagesDisjoint` | internal/adapters/repository/memory/order_repository.go:58-68 | In a list without duplicates, two pages whose offsets are at least k apart share no element. |
| `MapIteration.SomeKeyOrder` | internal/adapters/repository/memory/order_repository.go:43 | Every Go map has a visit order: each key exactly once. |
| `Domain.MatchesUpperRunIff` | internal/domain/order/entity.go:39 | `Domain.MatchesUpperRun` models the pattern at :39. The regular expression `^[A-Z]{n}$` accepts exactly the strings of length n whose characters are all in A..Z. |
| `Domain.ValidateCountry` | internal/domain/order/entity.go:65-71 | Succeeds if and only if the code has two characters, both in A..Z. Otherwise it returns `ErrInvalidCountry`. |
| `Domain.GenerateOrderID` | internal/domain/order/entity.go:43-63 | An invalid country gives `("", ErrInvalidCountry)`, and only an invalid country fails. A valid one gives a 30-character ID with '-' at 13 and 16, the country at 14..15, and the ULID halves at 0..12 and 17..29. |
| `Domain.ParseOrderID` | internal/domain/order/entity.go:58-62 | Any ID the parser accepts yields a 26-character ULID and a valid country. |
| `Domain.ParseGeneratedOrderID` | internal/domain/order/entity.go:58-62 | Removing the country segment and both dashes from a generated ID gives the ULID back, and the country reads back from it. |
| `Domain.GenerateParsedOrderID` | internal/domain/order/entity.go:58-62 | Converse: every ID the parser accepts is exactly the ID generated from the parts it yields. |
| `Domain.OrderIDInjective` | internal/domain/order/entity.go:43-63 | Different ULIDs or different countries never give the same order ID. |
| `Domain.CountryExamples` | internal/domain/order/entity.go:36-39 | "US" and "DE" pass. "us", "Us", "USA" and "" fail with `ErrInvalidCountry`. |
| `Domain.LowerCaseCountryRejected` | internal/domain/order/entity.go:44-47 | For every ULID, a country with any lower-case letter is refused, never upper-cased. |
| `OrderSort.OrderLessIrreflexive` | internal/adapters/repository/memory/order_repository.go:51-56 | The sort comparator never puts an order before itself. |
| `OrderSort.OrderLessAsymmetric` | internal/adapters/repository/memory/order_repository.go:51-56 | The comparator never says both a < b and b < a. |
| `OrderSort.OrderLessTotal` | internal/adapters/repository/memory/order_repository.go:51-56 | `OrderSort.OrderLess` is the `less` function at :51-56 (creation date, then order ID). Orders with different IDs are always ordered one way or the other. |
| `OrderSort.NotLessTransitive` | internal/adapters/repository/memory/order_repository.go:51-56 | "Not less" is transitive, so the comparator is a valid ordering for `sort.Slice`. |
| `OrderSort.Insert` | internal/adapters/repository/memory/order_repository.go:51-56 | Inserting into a list sorted by (creation date, order ID) keeps it sorted and adds exactly that order (multiset). |
| `OrderSort.SortOrders` | internal/adapters/repository/memory/order_repository.go:50-56 | The sorted list is in ascending (creation date, order ID) order and is a permutation of the filtered list. |
| `OrderSort.SortedIsStrict` | internal/adapters/repository/memory/order_repository.go:50-56 | When IDs are distinct, the sorted list is strictly ascending. |
| `OrderSort.SortedPermutationUnique` | internal/adapters/repository/memory/order_repository.go:50-56 | Two sorted lists holding the same orders, one order per ID, are equal. So the result is independent of input order and of the sorting algorithm. |
| `MemoryRepository.FilteredCount` | internal/adapters/repository/memory/order_repository.go:42-48 | `MemoryRepository.Matches` is the customer test at :44, and `MemoryRepository.Filtered` is the filter loop at :42-48 for a given visit order. After the filter loop, each order occurs once if it is stored under its ID, was visited and matches the customer; otherwise it does not occur. |
| `MemoryRepository.FilteredPermutation` | internal/adapters/repository/memory/order_repository.go:42-48 | Two visit orders of the map give filtered lists that are permutations of each other. |
| `MemoryRepository.ListingCount` | internal/adapters/repository/memory/order_repository.go:42-56 | The sorted listing holds each matching stored order exactly once and nothing else. |
| `MemoryRepository.ListingProperties` | internal/adapters/repository/memory/order_repository.go:42-56 | `MemoryRepository.Listing` is the filtered list sorted as at :50-56. Filter soundness: every listed order is stored and matches the customer. Completeness: every stored order that matches is listed, so with no filter all are. The listing has no duplicates and is strictly ascending by (creation date, order ID). |
| `MemoryRepository.ListingIndependentOfVisitOrder` | internal/adapters/repository/memory/order_repository.go:43-56 | Whatever order the map is visited in, filtering then sorting gives the same listing. |
| `MemoryRepository.ConsecutivePagesPartition` | internal/adapters/repository/memory/order_repository.go:38-69 | For page size k > 0, the pages at offsets 0, k, 2k, … concatenate to the whole listing, and two different pages share no order. |
| `MemoryRepository.Repository.constructor` | internal/adapters/repository/memory/order_repository.go:20-22 | A new repository holds the empty map. |
| `MemoryRepository.Repository.StoreOrder` | internal/adapters/repository/memory/order_repository.go:24-29 | The map afterwards sends the order's ID to the order, and every other key keeps its value. No error is ever returned. The key count grows by one only for a new ID, so storing twice overwrites. |
| `MemoryRepository.Repository.GetOrder` | internal/adapters/repository/memory/order_repository.go:31-36 | Returns `(order, true)` exactly when the ID is stored, the stored order having that ID. Otherwise it returns `(Order{}, false)`. |
| `MemoryRepository.Repository.GetOrders` | internal/adapters/repository/memory/order_repository.go:38-69 | Returns exactly page (limit, offset) of the deterministic sorted listing. Every result is a stored, matching order; there are at most `limit` of them; the map is not modified (no `modifies` clause). |
| `UsecaseService.Service.constructor` | internal/usecase/order/service.go:16-19 | The service holds the given repository. |
| `UsecaseService.Service.CreateOrder` | internal/usecase/order/service.go:22-34 | An invalid country returns `(Order{}, ErrInvalidCountry)` and stores nothing. Otherwise the order has status "order_placed", the request's customer ID and items verbatim, the given time, and the ID generated from the country and ULID. The repository then holds it under that ID, all else unchanged. |
| `UsecaseService.Service.GetOrder` | internal/usecase/order/service.go:37-39 | Returns what the repository's `GetOrder` returns for the same ID. |
| `UsecaseService.Service.GetOrders` | internal/usecase/order/service.go:42-44 | Returns what the repository's `GetOrders` returns: the same page of the sorted listing. |
| `UsecaseService.CreateThenGet` | internal/usecase/order/service.go:22-39 | After a successful create, `GetOrder` with the new ID finds the identical order. The ID parses back to the ULID and the country. |
| `CoreOrder.GenerateOrderID` | internal/core/order/order.go:81-96 | The older ID is 32 characters: the first 13 ULID characters, `-NONE-`, then the last 13. |
| `CoreOrder.ParseOrderID` | internal/core/order/order.go:91-95 | Any ID the parser accepts yields a 26-character ULID. |
| `CoreOrder.ParseGeneratedOrderID` | internal/core/order/order.go:91-95 | Removing `-NONE-` from a generated ID gives the ULID back. |
| `CoreOrder.GenerateParsedOrderID` | internal/core/order/order.go:91-95 | Every ID the parser accepts is the ID generated from its ULID. |
| `CoreOrder.HexByte` | internal/outgoing/order/repository.go:48 | A byte is written as two lower-case hex digits. |
| `CoreOrder.Hex` | internal/outgoing/order/repository.go:48 | n bytes give 2n lower-case hex digits. |
| `CoreOrder.UuidString` | internal/outgoing/order/repository.go:48 | The customer UUID's string is 36 characters, with dashes at 8, 13, 18 and 23 and lower-case hex digits elsewhere. |
| `CoreOrder.HexByteInjective` | internal/outgoing/order/repository.go:48 | Different bytes have different hex forms. |
| `CoreOrder.HexInjective` | internal/outgoing/order/repository.go:48 | Byte strings of equal length with the same hex form are equal. |
| `CoreOrder.UuidStringInjective` | internal/outgoing/order/repository.go:48 | Different UUIDs have different strings. |
| `OutgoingRepository.FilteredMembers` | internal/outgoing/order/repository.go:46-52 | `OutgoingRepository.Matches` is the test at :48, and `OutgoingRepository.Filtered` is the loop at :46-52 for a given visit order. An order is in the filtered list if and only if it is the value of a visited key and its customer UUID's string equals the filter (or there is no filter). |
| `OutgoingRepository.MatchesCanonicalUuid` | internal/outgoing/order/repository.go:48 | Filtering by a UUID's canonical string selects exactly the orders of that customer. |
| `OutgoingRepository.UpperCaseFilterMatchesNothing` | internal/outgoing/order/repository.go:48 | A filter containing an upper-case letter matches no order. |
| `OutgoingRepository.Repository.constructor` | internal/outgoing/order/repository.go:15-20 | A new repository holds the empty map. |
| `OutgoingRepository.Repository.StoreOrder` | internal/outgoing/order/repository.go:22-29 | The map afterwards holds the order under its ID, other keys unchanged; no error. |
| `OutgoingRepository.Repository.GetOrder` | internal/outgoing/order/repository.go:31-38 | Returns `(order, true)` for a stored ID and `(Order{}, false)` otherwise. |
| `OutgoingRepository.Repository.GetOrders` | internal/outgoing/order/repository.go:40-67 | For some visit order of the map, the result is exactly page (limit, offset) of the filtered list in that order. Every result is a stored order that matches the filter; there are at most `limit`; it is empty when the offset reaches the number of matches; the map is not modified. No ordering is promised. |
| `OutgoingRepository.UnsortedPageDependsOnVisitOrder` | internal/outgoing/order/repository.go:46-65 | One map with two orders has two allowed visit orders whose first pages (limit 1) differ. |
| `CoreService.Service.constructor` | internal/core/order/order.go:43-48 | The service holds the given repository. |
| `CoreService.Service.CreateOrder` | internal/core/order/order.go:50-67 | Returns an order with status "order_placed", the request's customer and items, the given time, and an ID that parses back to the ULID. The repository holds it under that ID, all else unchanged. The in-memory store never fails, so no error is returned. |
| `CoreService.Service.GetOrder` | internal/core/order/order.go:69-72 | Returns what the repository's `GetOrder` returns. |
| `CoreService.Service.GetOrders` | internal/core/order/order.go:74-77 | Returns what the repository's `GetOrders` returns: a page of the filtered orders in some visit order. Every result is a stored order that matches the filter, and there are at most `limit` of them. |
| `Frontend.Decimal` | internal/incoming/http/frontend/handler.go:113 | The decimal form of a number is a non-empty string of digits. |
| `Frontend.DecimalValue` | internal/incoming/http/frontend/handler.go:113 | Reading the decimal form of n as digits gives n back. |
| `Frontend.AtoiDecimal` | internal/incoming/http/frontend/handler.go:113 | `Frontend.Atoi` models `strconv.Atoi` at :113: an optional sign, at least one digit, and the int64 range. It parses the decimal form of every int64 value n ≥ 0 back to n. |
| `Frontend.TileCount` | internal/incoming/http/frontend/handler.go:108-117 | The tile count always lies in 1..20. |
| `Frontend.TileCountChoice` | internal/incoming/http/frontend/handler.go:108-117 | An absent or unparseable parameter gives 3. A parsed value is taken if and only if it lies in 1..20; otherwise the count stays 3. |
| `Frontend.TileCountHonoured` | internal/incoming/http/frontend/handler.go:113-116 | Each count from 1 to 20, written in decimal, is honoured. |
| `Frontend.TileCountExamples` | internal/incoming/http/frontend/handler.go:108-117 | "invalid" and "100" (sent by test/frontend_test.go) give 3, as do "", "0" and "-5". "5" gives 5 and "+7" gives 7. |
| `Frontend.Utf8Char` | internal/incoming/http/frontend/handler.go:209 | `Frontend.Utf8` is `[]byte(version)`: the characters' encodings, concatenated. A character below 0x80 is its own byte. Above that, it takes 2, 3 or 4 bytes by range. The lead byte is 110xxxxx, 1110xxxx or 11110xxx, every continuation byte is 10xxxxxx, and the carried bits decode back to the code point. |
| `Frontend.ColorIndex` | internal/incoming/http/frontend/handler.go:213-218 | The index lies in `[0, n)`. It is `hash % n` for hashes up to 2^31 − 1, and `(2^31 − 1) % n` for larger ones. |
| `Frontend.ColorForVersion` | internal/incoming/http/frontend/handler.go:202-221 | An empty colour list gives "#667eea". Otherwise the colour is always one of the configured colours. Being a function, it maps the same version to the same colour every time. |
| `Frontend.FnvExamples` | internal/incoming/http/frontend/handler.go:207-213 | `Frontend.Fnv1a32` models `fnv.New32a`, `Write` and `Sum32` at :207-213 (32-bit wrap-around as `bv32`). Its constants agree with known values: "" hashes to 0x811c9dc5, "a" to 0xe40c292c, "b" to 0xe70c2de5. |
| `Frontend.ClampedVersionsShareColor` | internal/incoming/http/frontend/handler.go:213-218 | All versions whose hash exceeds 2^31 − 1 get the same colour. |
| `Frontend.VersionsAAndBShareColor` | internal/incoming/http/frontend/handler.go:213-218 | Versions "a" and "b" get the same colour for every colour list. |
| `Frontend.TileInfo` | internal/incoming/http/frontend/handler.go:122-131 | A failed fetch shows version "error" and host "failed to fetch". A successful one shows the fetched information. |
| `Frontend.BuildTiles` | internal/incoming/http/frontend/handler.go:108-138 | The tile array has exactly `TileCount(count)` entries. Tile i has index i + 1, shows the i-th fetch outcome, and has the colour of the version it shows. |

## Left out

- Locking: the `sync.RWMutex` of both repositories is not modelled. Every call runs alone, so concurrent safety and snapshot reads are not captured.
- ULID generation and the clock: `ulid.Monotonic`, `crypto/rand` and `time.Now()` are replaced by a 26-character ULID string and an instant passed as parameters. So ULID uniqueness and monotonicity are assumed, not proved. The `.UTC()` location and the ULID alphabet are not modelled.
- Port interfaces: `internal/ports/order/repository.go:7-11`, `internal/ports/order/service.go` and the `Repository` interface at `internal/core/order/order.go:37-41` are not reproduced. Dafny traits are not used in this model, so each service holds the concrete in-memory repository of its generation.
- UsecaseService.Service.CreateOrder: the branch that returns the zero order with the store's error is written out, but no modelled repository can fail, so it is unreachable. The "same error is propagated" promise is verified only vacuously.
- CoreService.Service.CreateOrder: the same holds for the older service's store-error branch.
- `sort.Slice` is a library call. Its effect is modelled by a function giving a sorted permutation, not by sorting the slice in place; `SortedPermutationUnique` shows that any algorithm gives the same result here.
- Order items: `Items` is a Go slice, and `CreateOrder` copies only its header (internal/usecase/order/service.go:28, internal/core/order/order.go:58). So the stored order, the returned order and later `GetOrder` results share the request's backing array. The model's `seq<OrderItem>` is a value, so this aliasing is not captured.
- Strings are sequences of Unicode scalar values. Go strings holding invalid UTF-8 cannot be represented.
- UUID parsing and the HTTP request/response mapping (`internal/adapters/http/order/handler.go`, `internal/incoming/order/order.go`) are out of scope. That includes the default limit 50 and offset 0, which these adapters supply. The canonical `UUID.String()` form is modelled because the older repository filters on it.
- Frontend I/O: `fetchInstanceInfo` (HTTP client), template parsing in `NewFrontendHandler`, `IndexHandler` and template rendering are not modelled. Each fetch is given as its outcome, and a failed fetch carries the time its placeholder records.
- Frontend.ColorForVersion: the `hasher.Write` error branch (handler.go:209-211) is omitted, because FNV's `Write` never returns an error.
- The older frontend adapter, the UI, status, instance, metrics, configuration, server wiring and build files are outside the modelled core.

## Findings

| source | as written | input that shows it | evidently intended | confidence | as-written member | corrected member |
|---|---|---|---|---|---|---|
| internal/outgoing/order/repository.go:46-65 | Pagination is applied directly to the map-iteration order, with no sort. | A map holding orders "A" and "B", with limit 1 and offset 0. Visiting A first returns [A]; visiting B first returns [B]. So pages are unstable between calls and can skip or repeat orders. | Sort by (creation date, order ID) before paginating, as the current repository does. The listing is then independent of the visit order, and consecutive pages partition it. | high; not executed | `OutgoingRepository.UnsortedPageDependsOnVisitOrder` | `MemoryRepository.ListingIndependentOfVisitOrder` |
