# Client ledger of the Prex balance service, in Dafny

The service keeps its clients in memory, in a `HashMap<u32, Client>` behind one mutex.
Its HTTP handlers each take the lock and then do one complete step on that map:

- register a client;
- credit an amount to a client's balance;
- query a balance;
- export every balance to a file named `DDMMYYYY_<counter>.DAT`.

The counter in that name is the process-wide `FILE_COUNTER`, an `AtomicU32` that starts at 0.

This project models that ledger. Each handler is one atomic method.

- `Clients.Registry` is a class holding the client map (`clients: map<U32, Client>`).
  - `Register`, `Credit` and `BalanceOf` are the handlers `new_client`, `new_credit_transaction` and `client_balance`.
  - `Valid()` is the registry invariant: the ids in use are exactly `1..n`, every client's `id` equals its key, no two clients share a document number, and no balance is negative.
  - Each mutating method is proved to keep that invariant. It is also proved to only extend the map: no client disappears, no identity field changes, and no balance goes down.
- `Export.FileCounter` is `FILE_COUNTER`. `FetchAdd` wraps at 2^32, as `fetch_add` does. A ghost history `issued` records every value handed out.
- `Export.StoreBalances` is the `store_balances` handler.
  - It consumes one counter value, whatever happens afterwards.
  - It names the file with `FileName`.
  - It writes one `"<id>: <balance>"` line per client in the map's iteration order. `WriteBalances` is that loop.
- `FileName` and `BalanceLine` each have a parser (`ParseFileName`, `ParseBalanceLine`). The contract of each states that its output parses back to its inputs. From that round trip it follows that:
  - different counter values give different file names;
  - a complete export has exactly one line per stored client.
- `Decimal` renders numbers as the source does: `NatToString` is the unpadded `{}`, and `FixedDigits` is the zero padding of chrono's `%d%m%Y`. The contract of each states that its digits read back as the number.
- `ExportTwice` runs two exports in a row. When both succeed, their file names differ.
- `Scenario` plays a short session against a fresh service. It registers, credits, retries a duplicate, queries and exports. The results are proved, down to the file name `05062024_0.DAT` and the line `1: <balance>`.

In three places the model follows the code where one might expect otherwise:

- A credit checks that the client exists before it checks the amount. So a negative amount sent to an unknown id is reported as an unknown client.
- `store_balances` takes its counter value before it locks the map. It then holds the lock while it creates and writes the file. The model treats the whole handler as one atomic step.
- New ids are `clients.len() + 1`, not a separate id counter. The invariant `IdsAreOneToN` proves this id is always unused, because nothing is ever deleted.

## Model

| member | source | states |
|---|---|---|
| `Clients.Registry.constructor` | src/main.rs:150-151 | The service starts with an empty, valid registry. |
| `Clients.Registry.HasDocument` | src/main.rs:48-49 | The duplicate scan answers true exactly when some stored client holds the document number. |
| `Clients.Registry.Register` | src/main.rs:44-70 | If the document is already held, the result is the duplicate-document error and the map is unchanged. Otherwise the returned id is `old size + 1`, was not in use, and the map is the old map plus that one client, with its `id` equal to the key and balance 0. The invariant is kept. |
| `Clients.NewRecord` | src/main.rs:58-65 | A new client record carries the assigned id, the request's document number, and balance 0. |
| `Clients.NextIdIsFresh` | src/main.rs:54 | When the ids are exactly `1..n`, the next id `n + 1` is not in use, so the insert at line 67 never overwrites a client. |
| `Clients.RegisterKeepsIdsOneToN` | src/main.rs:54-67 | Inserting under `n + 1` keeps the ids exactly `1..n+1` and grows the map by one. |
| `Clients.RegisterKeepsDocumentsUnique` | src/main.rs:48-51 | Inserting a document held by no one keeps document numbers unique. |
| `Clients.RegisterKeepsWellFormed` | src/main.rs:44-70 | A successful registration keeps every registry invariant and changes no existing client. |
| `Clients.Registry.Credit` | src/main.rs:73-93 | An unknown id gives the client-does-not-exist error, even for a negative amount. A negative amount for a stored client gives the amount error. Both errors leave the map unchanged. Otherwise the result is `old balance + amount`, and only that client's balance changes. The invariant is kept and no balance goes down. |
| `Clients.CreditKeepsWellFormed` | src/main.rs:86-90 | A non-negative credit keeps every registry invariant and only raises one balance. |
| `Clients.Registry.BalanceOf` | src/main.rs:135-145 | A query succeeds exactly for the ids `1..n`. It then returns that client's balance, which is never negative. Any other id gives the not-found error. |
| `Decimal.NatToString` | src/main.rs:130 | The unpadded decimal text of a number is at least one digit long and all digits. It has no leading zero: a text starting with `0` is exactly `"0"`. It reads back as the number. |
| `Decimal.NatToStringInjective` | src/main.rs:130 | Different numbers have different unpadded decimal texts. |
| `Decimal.FixedDigits` | src/main.rs:127 | The zero-padded text of a number that fits the width has exactly that many digits and reads back as that number. |
| `Export.DateStamp` | src/main.rs:126-127 | The `%d%m%Y` stamp of a date is exactly eight digits. The first two read back as the day, the next two as the month, and the last four as the year. |
| `Export.FileName` | src/main.rs:124-133 | A file name parses back to the date and counter it was built from. |
| `Export.FileNamesDistinct` | src/main.rs:124-133 | Two different counter values never give the same file name, whatever the dates. |
| `Export.BalanceLine` | src/main.rs:114 | A `"<id>: <balance>"` line parses back to its id and balance text. |
| `Export.BalanceLines` | src/main.rs:113-117 | The lines written for an order of ids are one line per id, in that order, each with that client's balance. |
| `Export.SnapshotHasOneLinePerClient` | src/main.rs:113-117 | A complete export has as many lines as clients. Each line reads back as a stored id with that client's balance. Every client has such a line, and no line is repeated. |
| `Export.WriteBalances` | src/main.rs:113-117 | The write loop visits stored ids without repeats and writes their lines. It finishes with every id, in some order, unless a write fails. In that case it stops with exactly the lines written before the failing one. |
| `Export.FileCounter.constructor` | src/main.rs:12 | The counter starts at 0 with nothing issued. |
| `Export.FileCounter.FetchAdd` | src/main.rs:98 | Returns the current value, appends it to the issued history, and advances by one modulo 2^32. |
| `Export.IssuedValuesDistinct` | src/main.rs:12 | Within the first 2^32 fetches, no counter value is handed out twice. |
| `Export.IssuedValuesWrap` | src/main.rs:98-107 | Fetch number 2^32 hands out 0 again: the `u32` counter wraps. An export made then, on the same date as the first export, gets the first export's file name, so `File::create` truncates the earlier file. |
| `Export.ExportNamesDistinct` | src/main.rs:98-101 | Within the first 2^32 exports of a process, no two exports get the same file name, on any dates. |
| `Export.StoreBalances` | src/main.rs:96-120 | Every call consumes exactly one counter value, even when file creation or a write then fails. A failed create gives the create error and no file. A failed write gives the write error and the lines written so far. Otherwise the result is `FileName(today, old counter)` and the file holds one line per stored client. |
| `Export.ExportTwice` | src/main.rs:96-120 | Two exports in a row consume two consecutive counter values. When both succeed, they name different files, whatever the two dates. |
| `Scenario.StampOfFifthJune` | src/main.rs:127 | The `%d%m%Y` stamp of 5 June 2024 is `05062024`. |
| `Scenario.FirstExportName` | src/main.rs:124-133 | The first export on 5 June 2024 is named `05062024_0.DAT`. |
| `Scenario.RegisterThenCredit` | src/main.rs:44-93 | In a fresh service, the first registration gets id 1, and a credit of 100 to it returns 100. |
| `Scenario.ExportSingleClient` | src/main.rs:96-120 | The first export of a registry holding client 1 with balance 100 is `05062024_0.DAT`, with the single line `1: <balance>`. |
| `Scenario.RegisterCreditQueryExport` | src/main.rs:44-145 | The whole session: id 1, balance 100, the duplicate document refused, the query answering 100, and the export above. |

## Left out

- The HTTP layer (src/main.rs:148-164) is left out: actix-web routing, status codes, response bodies and `main`. Each handler's outcome is a `Result` value with one error constructor per error response.
- JSON (de)serialisation of the requests is left out, and so is chrono's parsing of `birth_date`. A birth date is an opaque `Date` value that the registry never inspects.
- The mutex and `Arc` are left out. Each handler is one atomic method.
  - `store_balances` takes its counter value before it locks the map, so under concurrency the counter order and the snapshot order can differ. The model does not capture this.
  - The model does not capture that the lock is held across file I/O.
- `f64` arithmetic is left out. Balances and amounts are exact reals, so the model has no rounding, infinities or NaN. (A NaN amount would pass the `< 0.0` check.)
- How a float is printed is left out. The balance text is a parameter `render: real -> string`.
- The clock is left out. `Local::now()` becomes a `today` parameter with day 1..31, month 1..12 and year 0..9999. Years outside that range would not print as four digits and are not modelled.
- File system effects are left out. `File::create` and `writeln!` become two parameters: `createFails`, and `writeFailsAt` (the index of the write that fails). The file is modelled as its sequence of lines. Not modelled:
  - line terminators;
  - partial bytes of a failing write;
  - overwriting an existing file with the same name.
- Clients.Registry.Register: requires fewer than 2^32 - 1 stored clients. It does not model the `u32` overflow of `clients.len() as u32 + 1`.
