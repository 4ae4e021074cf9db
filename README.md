# Customer management API: loyalty tier and customer resource

A Dafny model of the two pieces of the customer management API that make decisions:

- **The loyalty tier rule** of the `Customer` model. It reads `annualSpend` and `lastPurchaseDate` against the current time. The result is Silver, Gold or Platinum.
- **The customer resource controller.** It covers listing with the name/email filter, create, show, partial update and delete, over the `customers` table.

Files:

- `customer_model.dfy` (module `CustomerModel`): the customer record and the tier rule. Money is integer cents, because `annualSpend` is a `decimal(8,2)` column. Instants are integers. The classifier gets a `Clock`: the current instant, the instant six months earlier and the instant twelve months earlier. The date library does the month arithmetic.
  - `TierOf` is proved to return the highest tier whose conditions (`Qualifies`) the customer meets.
  - `TierAsWritten` models the rule as written against a mutable date object. Subtracting six months changes the clock object itself. The lemma `GoldWindowFromUnmodifiedNow` shows that the Gold window is still twelve months back from the real current time, not eighteen.
- `customer_table.dfy` (module `CustomerTable`): the table as a sequence of rows in insertion order.
  - `Consistent` states the primary key on `id` and the unique index on `email`.
  - Lookup, insert, partial update and delete are specification functions. Lemmas prove that each keeps the constraints and changes no other lookup.
- `customer_controller.dfy` (module `CustomerController`):
  - The listing filter is the list of `where`/`orWhere` clauses it builds, read with SQL precedence. It is proved equal to "no filter, or any supplied field matches", which is a union, not an intersection.
  - The class `CustomerStore` holds the table and has one method per controller action. Each action returns a `Response` value where the controller returns an HTTP response. `NotFound` stands for the 404 `Customer not found` reply, and `Deleted` stands for `Customer deleted successfully`.

One behaviour of the code that the model keeps as written:

- **Missing purchase date.** `Carbon::parse(null)` at `app/Models/Customer.php:37` gives the current time. So a customer with spend of at least 1000.00 and no purchase date is Gold or Platinum, not Silver. The model takes the date parser's behaviour as an assumption (`ParsedDate`), and `MissingDateCountsAsRecent` proves the consequence.

One behaviour of the code that the model does not keep:

- **Primary key overwrite.** `id` is fillable (`app/Models/Customer.php:24`), and `update($request->all())` (`app/Http/Controllers/CustomerController.php:75`) does not filter the request. So a request that carries `id` can change a customer's primary key. The model does not cover this (see Left out).

A property the proofs make explicit: the tier is not monotone in spend. Take a purchase eight months old. At 9999.99 the customer is Gold; at 10000.00 the customer is Silver (`HigherSpendCanLowerTier`). A later purchase, by contrast, never lowers the tier.

## Model

| member | source | states |
|---|---|---|
| `CustomerModel.Label` | app/Models/Customer.php:16-18 | the three tier labels `Silver`, `Gold` and `Platinum` (their properties are stated by `LabelRoundTrip`) |
| `CustomerModel.LabelRoundTrip` | app/Models/Customer.php:16-18 | each of the three tiers has its own label, and the label parses back to the tier |
| `CustomerModel.ParseLabel` | app/Models/Customer.php:16-18 | a label that parses names the tier it parses to |
| `CustomerModel.TierOf` | app/Models/Customer.php:31-47 | `getTierAttribute` over a customer's spend and last purchase date: the tier returned meets its conditions, and no higher tier's conditions are met (Gold needs spend in [1000.00, 10000.00) and a purchase at or after twelve months ago; Platinum needs spend of at least 10000.00 and a purchase at or after six months ago) |
| `CustomerModel.TierAsWritten` | app/Models/Customer.php:33-46 | the rule as written. The six-month subtraction changes the clock, and it runs only when spend is at least 10000.00; the Gold test subtracts twelve months from whatever the clock then holds (its meaning is stated by `GoldWindowFromUnmodifiedNow`) |
| `CustomerModel.GoldWindowFromUnmodifiedNow` | app/Models/Customer.php:38-42 | the rule as written, with the clock mutated by the six-month subtraction, equals the rule with both windows taken from the unmodified current time; so Gold implies a purchase at or after twelve months ago, not eighteen |
| `CustomerModel.LowSpendIsSilver` | app/Models/Customer.php:33-35 | null spend or spend below 1000.00 gives Silver whatever the date |
| `CustomerModel.RecentHighSpendIsPlatinum` | app/Models/Customer.php:40-41 | spend of at least 10000.00 with a purchase at or after the six-month threshold (boundary included) gives Platinum |
| `CustomerModel.RecentMidSpendIsGold` | app/Models/Customer.php:42-43 | spend in [1000.00, 10000.00) with a purchase at or after the twelve-month threshold (boundary included) gives Gold |
| `CustomerModel.StaleHighSpendIsSilver` | app/Models/Customer.php:40-46 | spend of at least 10000.00 with a purchase before the six-month threshold gives Silver, never Gold |
| `CustomerModel.StaleMidSpendIsSilver` | app/Models/Customer.php:42-46 | spend in [1000.00, 10000.00) with a purchase before the twelve-month threshold gives Silver |
| `CustomerModel.TierImpliesSpendBand` | app/Models/Customer.php:33-44 | Platinum implies spend of at least 10000.00; Gold implies spend in [1000.00, 10000.00) |
| `CustomerModel.MissingDateCountsAsRecent` | app/Models/Customer.php:37-43 | with ordered thresholds, spend of at least 1000.00 and no purchase date gives Platinum at 10000.00 or more and Gold below |
| `CustomerModel.LaterPurchaseNeverLowersTier` | app/Models/Customer.php:40-46 | moving the purchase date later never lowers the tier |
| `CustomerModel.HigherSpendCanLowerTier` | app/Models/Customer.php:40-46 | some clock and purchase date give Gold at 9999.99 but Silver at 10000.00 |
| `CustomerTable.Find` | app/Http/Controllers/CustomerController.php:55-59 | lookup by id finds nothing exactly when no row has the id; otherwise it returns a row of the table with that id |
| `CustomerTable.FindIsTheRow` | database/migrations/2024_11_06_182020_create_customers_table.php:15 | with ids unique, the row found by id is the one row holding it |
| `CustomerTable.Inserted` | app/Http/Controllers/CustomerController.php:39-45 | the table after a create: the old rows followed by the new row (its properties are stated by `InsertedProperties`) |
| `CustomerTable.InsertedProperties` | app/Http/Controllers/CustomerController.php:39-45 | inserting a row with a fresh id and an unused email keeps ids and emails unique, makes the row findable by its id, and leaves every other lookup unchanged |
| `CustomerTable.Apply` | app/Http/Controllers/CustomerController.php:75 | overwrites the supplied fields of one row; the id is always kept (what it writes is stated by `ApplyProperties`) |
| `CustomerTable.ApplyProperties` | app/Http/Controllers/CustomerController.php:75 | a partial update writes each supplied field with the supplied value and leaves every other field as it was; an empty patch changes nothing, and applying a patch twice equals applying it once |
| `CustomerTable.Patched` | app/Http/Controllers/CustomerController.php:69-75 | the table after an update keeps its length; the row with the id has the patch applied, and every other row is unchanged |
| `CustomerTable.PatchedConsistent` | database/migrations/2024_11_06_182020_create_customers_table.php:15-17 | updating a row keeps ids and emails unique unless the new email belongs to another row |
| `CustomerTable.PatchedFindTarget` | app/Http/Controllers/CustomerController.php:75-77 | after an update the row with that id is found with the patch applied to its old fields |
| `CustomerTable.PatchedFindOthers` | app/Http/Controllers/CustomerController.php:75 | an update leaves what every other id finds unchanged |
| `CustomerTable.Removed` | app/Http/Controllers/CustomerController.php:85-91 | the table after a delete holds exactly the old rows whose id differs, and is no longer than before |
| `CustomerTable.RemovedConsistent` | database/migrations/2024_11_06_182020_create_customers_table.php:15-17 | deleting a row keeps ids and emails unique |
| `CustomerTable.RemovedCount` | app/Http/Controllers/CustomerController.php:91 | deleting a present id removes exactly one row; deleting an absent id leaves the table as it was |
| `CustomerTable.RemovedFind` | app/Http/Controllers/CustomerController.php:91-93 | after a delete the id is not found, and every other id finds what it found before |
| `CustomerController.GroupClauses` | app/Http/Controllers/CustomerController.php:21-28 | the clauses of the nested group: a `where` on name when the name parameter is present, then an `orWhere` on email when the email parameter is present |
| `CustomerController.EvalRuns` | app/Http/Controllers/CustomerController.php:21-28 | reads a clause list as SQL does: AND binds tighter than OR |
| `CustomerController.Matches` | app/Http/Controllers/CustomerController.php:20-28 | the row test of the listing: no group at all without either parameter, otherwise the group of clauses with its first connective dropped (its meaning is stated by `MatchesIsUnion`) |
| `CustomerController.MatchesIsUnion` | app/Http/Controllers/CustomerController.php:20-28 | the where/orWhere group matches a row exactly when no parameter is given or any supplied field equals its parameter; name alone and email alone are plain equality tests (an opening `orWhere` acts as `where`); both together give name OR email |
| `CustomerController.Select` | app/Http/Controllers/CustomerController.php:18-31 | the listing is a subsequence of the table, and it holds exactly the rows that satisfy the filter |
| `CustomerController.SelectAll` | app/Http/Controllers/CustomerController.php:18-31 | without parameters the listing is every row of the table, in the order the model gives the table |
| `CustomerController.SelectBothIsUnion` | app/Http/Controllers/CustomerController.php:21-28 | with both parameters a row is listed exactly when it is in the table and its name or its email matches |
| `CustomerController.SelectNoMatchIsEmpty` | app/Http/Controllers/CustomerController.php:21-28 | when no row has the name or the email, the listing is empty |
| `CustomerController.EitherFieldScenario` | tests/Feature/CustomerControllerTest.php:86-131 | with Alice and Bob stored, a name match with an unknown email lists Alice, an email match with an unknown name lists Bob, and two unknown values list nobody |
| `CustomerController.Present` | app/Models/Customer.php:20-21 | a customer as returned: the stored fields with `TierOf` of its spend and purchase date at the given clock appended |
| `CustomerController.PresentAll` | app/Http/Controllers/CustomerController.php:31 | a listing as returned: the same customers in the same order, each with its tier at the given clock |
| `CustomerController.CustomerStore.Index` | app/Http/Controllers/CustomerController.php:16-31 | returns the filtered rows in table order, each one in the table and matching, each with its tier computed at the given clock; the table is not changed |
| `CustomerController.CustomerStore.Store` | app/Http/Controllers/CustomerController.php:37-47 | with a fresh id: an email already in use is refused and the table is unchanged; otherwise exactly the new row is appended, with the supplied name and email and the nullable fields as given (null when absent), the uniqueness constraints still hold, and the created customer is returned with its tier |
| `CustomerController.CustomerStore.Show` | app/Http/Controllers/CustomerController.php:53-62 | returns NotFound exactly when no row has the id; otherwise returns that row with its tier |
| `CustomerController.CustomerStore.Update` | app/Http/Controllers/CustomerController.php:67-78 | an unknown id gives NotFound and no change; an email held by another row is refused with no change; otherwise only the supplied fields of that row change, every other row is untouched, and the updated customer is returned with its recomputed tier |
| `CustomerController.CustomerStore.Destroy` | app/Http/Controllers/CustomerController.php:83-94 | an unknown id gives NotFound and no change; otherwise the row is deleted, one row fewer remains, and every other row is still found; afterwards the id is absent, so a later Show gives NotFound |
| `CustomerController.CrudScenario` | tests/Feature/CustomerControllerTest.php:19-170 | a client that creates the customer `John Doe`, shows that customer, renames it to `John Smith` with a new email, spend and purchase date, deletes it and shows it again: the create returns the new row, the show returns the same row, the update keeps the id and returns the supplied name, email, spend and purchase date, the delete succeeds, and the last show gives NotFound |

## Left out

- HTTP transport: routing, JSON serialisation, status codes and response bodies are represented by the `Response` datatype. The routes file registers a versioned controller under a `v1` prefix. That controller is not part of this model, and neither is the routes file.
- Request validation: the create and update request classes are not part of this model. No email syntax, length limit or "sometimes" rule is modelled. Only the schema's unique index on `email` is. A duplicate email is answered by `EmailInUse` with the table unchanged. In the running system it arrives as a validation error or as a database error.
- Id generation: the new id is a parameter of `Store`, required to be absent from the table. In the source it is a freshly generated UUID.
- Date parsing and calendar arithmetic: dates are integer instants. Month subtraction is either a precomputed `Clock` or a `subMonths` function parameter. Unparseable date strings are not modelled. A missing date parsing to the current time is the date library's behaviour, taken as an assumption.
- Clock reads: every row of a listing is classified at one `Clock`. In the source each row reads the wall clock separately, microseconds apart.
- Money bounds: spend is an unbounded integer number of cents. The `decimal(8,2)` precision limit of the column is not enforced, and neither is non-negativity. Floating-point test data is not modelled.
- `CustomerController.CustomerStore.Update`: covers the four data fields only. In the source, `id` is fillable and the update takes the whole request, so a request carrying `id` could overwrite the primary key. The model does not capture that, so the model keeps ids fixed where the code does not promise it.
- Listing order: the query has no `ORDER BY`, so the database chooses the order of the listing. The model fixes it as table (insertion) order, and `Select`, `SelectAll` and `Index` state their results in that order.
- String comparison: the `where`/`orWhere` tests and the unique index on `email` compare strings under the database's collation. That is binary under SQLite's default and case-insensitive under MySQL's. The model compares strings with exact equality, which matches a binary collation only.
- Query parameters that are present but empty: the framework converts these to null before the query runs. The model treats every present parameter as a value.
- Audit timestamps, the migration's `down()`, the model factory and the test harness are framework or test code.
- Concurrency: the race between two creates with the same email is settled by the database's unique index. The model runs one action at a time.
