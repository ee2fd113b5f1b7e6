# Customer registry: a verified model of the table logic

The service keeps customer records in one in-memory map, from a string identifier to a `Customer` record. The map starts with four seed records. Five HTTP handlers operate on it: list all records, get one, create, update and delete. Get, update and delete have one domain error, NotFound. The handlers send it as a 404 with the text "Customer not found".

This project models that map and those handlers, without the HTTP and JSON layers:

- `strconv.dfy`, module `Strconv`: decimal formatting of identifiers (`Itoa`, as `strconv.Itoa` does it for non-negative numbers) and its inverse `DecimalValue`, the value of a digit string. Both round trips and injectivity are proved, as is the count of a run of consecutive identifiers.
- `customer.dfy`, module `CustomerTable`: the `Customer` record and the seed table. It also holds the identifier a create assigns (`NextId`) and facts about tables: listings, the well-keyed invariant (every record stored under its own id), density (keys "1".."n"), and a free identifier among any |t|+1 consecutive numbers.
- `store.dfy`, module `CustomerStore`: class `Store`, whose field `db` is the package-level map. Its methods `List`, `Get`, `Create`, `Update` and `Delete` each model one handler's effect, in place. `CreateFresh` is the corrected create (see Findings).
- `handlers.dfy`, module `Handlers`: how an outcome becomes a status and body (200, 201 or 404).
- `scenarios.dfy`, module `Scenarios`: request sequences on a freshly started store, proved from the store's contracts.

The model follows the code in two places where it does less than its comments and its record description suggest:

- Create does not guarantee a new identifier. It assigns decimal(|db|+1) and stores the record under that key, overwriting any record already there. When the candidate is free, the retry loop is entered, finds the candidate free on its first pass, and stops. Its `continue` branch cannot be reached, and the model proves this.
- Update replaces the whole record, including its `id` field, with the payload. So a table can stop being well keyed. `Store.Update` states exactly when that happens.

## Model

| member | source | states |
|---|---|---|
| Strconv.Itoa | main.go:73 | The identifier is a canonical decimal string: at least one digit and no leading zero. It has a single digit exactly when the number is below 10. |
| Strconv.ValueOfItoa | main.go:73 | Parsing a formatted identifier gives back the number. |
| Strconv.ItoaOfValue | main.go:73 | Formatting the parsed value of a canonical decimal string gives back the string, so formatting is a bijection onto canonical strings. |
| Strconv.ItoaInjective | main.go:79 | Different numbers get different identifiers. |
| Strconv.DecimalRangeSize | main.go:78-86 | The identifiers of `count` consecutive numbers are `count` distinct strings. |
| CustomerTable.Seed | main.go:31-36 | The seed table has exactly the keys "1", "2", "3" and "4". Each record's id equals its key, and no seed customer has been contacted. |
| CustomerTable.NextId | main.go:73 | The candidate identifier is canonical decimal and denotes the table's size plus one. |
| CustomerTable.ListingSize | main.go:43-46 | A listing of the table (its values, one per key) has exactly as many entries as the table has keys. |
| CustomerTable.ListingRoundTrip | main.go:43-58 | On a well-keyed table, looking up each listed record by its own id gives back that record, and every stored record appears in the listing. |
| CustomerTable.FreeIdInRange | main.go:77-86 | Among any |t|+1 consecutive numbers, one has an identifier that is not a key of the table. |
| CustomerTable.SeedIsDense | main.go:31-36 | The seed keys are exactly the identifiers of 1..4. |
| CustomerTable.DenseCreateIsFresh | main.go:73-89 | If the keys are exactly the identifiers of 1..|t|, the create candidate is new. The table then grows by one and keeps that shape, so creates without deletes never overwrite. |
| CustomerTable.NextIdAfterDeleteCollides | main.go:73-89 | After "2" is deleted from the seed, the create candidate is "4", and "4" is still a stored key. |
| CustomerStore.Store.constructor | main.go:31-36 | The store starts as the seed table. |
| CustomerStore.Store.List | main.go:43-46 | Returns the table's values, one per key, in an unspecified order. Its length is the table's size. |
| CustomerStore.Store.Get | main.go:58-64 | Ok with the stored record exactly when the id is a key; NotFound otherwise. Get changes nothing. |
| CustomerStore.Store.Create | main.go:73-91 | The record gets id decimal(|db|+1) and is stored under that key, overwriting any record there. The size grows by one when the key was free and is otherwise unchanged. Well-keyedness is preserved. |
| CustomerStore.Store.CreateFresh | main.go:77-89 | Corrected create: the assigned id is the first identifier from decimal(|db|+1) upward that was not a key, so it is the same id the code assigns whenever that candidate is free. It lies between |db|+1 and 2|db|+1. The size grows by exactly one, and every other entry is unchanged. |
| CustomerStore.Store.Update | main.go:101-108 | On a present key, stores the payload verbatim and returns it, keeping the key set. On an absent key, NotFound and no change. A well-keyed table stays well keyed exactly when the payload's id equals the key. |
| CustomerStore.Store.Delete | main.go:116-123 | On a present key, removes exactly that key, keeps every other entry and returns the remaining table. On an absent key, NotFound and no change. Well-keyedness is preserved. |
| Handlers.Respond | main.go:48-124 | A result goes out as JSON with 201 for a create and 200 otherwise. NotFound goes out as 404 with "Customer not found". Status 404 occurs exactly for NotFound. |
| Scenarios.CreateOnSeed | main.go:73-91 | Creating on the seed table answers 201 with id "5" and leaves five records. |
| Scenarios.GetMissing | main.go:58-64 | Getting "99" from the seed table answers 404 "Customer not found". |
| Scenarios.DeleteThenGet | main.go:116-123 | Deleting "2" answers 200 with the seed's remaining records "1", "3" and "4" as the JSON body. A later get of "2" answers 404. |
| Scenarios.CreateAfterDeleteOverwrites | main.go:73-89 | Deleting "2" and then creating assigns id "4". The new record replaces customer 4, and the table stays at three records. |
| Scenarios.CreateFreshAfterDelete | main.go:73-89 | With the corrected create, deleting "2" and then creating assigns the first free id, "5", and the table grows back to four records. |
| Scenarios.UpdateWithOtherId | main.go:101-103 | Updating "1" with a payload whose id is "7" stores that payload under "1", and the table is no longer well keyed. |

## Left out

- HTTP routing, method matching and reading the `{id}` path variable are not modelled. The id is a plain string parameter.
- JSON encoding and decoding are not modelled. Decode errors are discarded by the code, so the payload is any `Customer` value, the zero-valued one included. An empty list, which Go encodes as `null`, is not distinguished from `[]`.
- Response headers, the trailing newline that the 404 text gets on the wire, the HTML index page, start-up printing and the listener are I/O and are not modelled.
- Concurrent handlers racing on the unguarded map are not modelled: each operation is one atomic step.
- Strconv.Itoa: covers only non-negative numbers, because its only argument is the table size plus one.
- CustomerStore.Store.List: the iteration order is an arbitrary choice, standing in for Go's unspecified map order. The contract fixes the contents and not the order.

## Findings

| source | as written | input that shows it | evidently intended | confidence | as-written member | corrected member |
|---|---|---|---|---|---|---|
| main.go:73-89 | Create assigns decimal(size+1) and, when that key is taken, stores the new record under it, overwriting the existing customer. The comment at line 77 sits on the other branch. | Seed table; DELETE /customers/2; POST /customers. The candidate is "4", which replaces "Jane Smith", and the table stays at 3 records. | When the candidate is taken, look further until a free identifier is found, so every create adds a record. | high (not executed) | Scenarios.CreateAfterDeleteOverwrites | CustomerStore.Store.CreateFresh, exercised by Scenarios.CreateFreshAfterDelete |
