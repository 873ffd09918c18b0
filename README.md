# Blog store — a verified model

This project models the in-memory blog store of a small TypeScript HTTP
service (`src/service.ts`). The store is a module-level array of `Blog`
records (`id`, `title`, `content`, `author`, `createdAt`) and an identifier
counter `nextId` that starts at 1. It exports six operations:
- `resetBlogs` empties the array and restarts the counter;
- `createBlog` takes the next identifier, stamps the record and appends it;
- `getAllBlogs` returns the array;
- `getBlogById` finds a record by identifier (`Array.prototype.find`);
- `deleteBlog` finds its position (`findIndex`) and `splice`s it out;
- `updateBlog` finds the record and `Object.assign`s the supplied fields onto it.

In the model (`service.dfy`, module `Service`) the store is a class `Store`
with a `seq<Blog>` field and a `nat` counter. Each state-changing function is
a method with `modifies this`. `Valid()` is the store invariant: identifiers
are positive, strictly increasing in array order (hence unique) and all
below `nextId`, and `nextId >= 1`. Every method preserves it. `find` and
`findIndex` are the recursive functions `FindById` and `IndexOf`. The
result of a delete is specified by `Without`, an order-keeping filter, and
lemmas tie it to the splice the source performs. `scenarios.dfy` (module
`Scenarios`) replays call sequences from, or in the manner of, the store's
tests on a fresh store and states the outcomes expected of them.

The creation time is a `Timestamp` that the caller passes in. The source
reads it from the wall clock.

Update uses `Object.assign`, so a supplied key always overwrites, even with
an empty string. Only an absent key leaves its field alone. A truthiness
filter such as the test harness's own PUT route
(src/__tests__/endpoints.test.ts:53-55) would skip empty strings; the store
does not. `BlogUpdate` holds three `Option<string>` fields, and `None` means
the key is absent.

## Model

| member | source | states |
|---|---|---|
| `Service.IndexOf` | src/service.ts:41 | `findIndex`: the result is -1 exactly when no record has the identifier. Otherwise it is the position of the first record that has it. |
| `Service.FindById` | src/service.ts:37 | `find`: returns a record of the sequence with the given identifier, or nothing exactly when none has it. It is the element at the position `IndexOf` reports (the first match). |
| `Service.Without` | src/service.ts:40-46 | Specification of the post-delete array: a record is kept exactly when it was present and has a different identifier. The result is never longer than the input. |
| `Service.Apply` | src/service.ts:49-56 | A record after `Object.assign(blog, updates)`: `id` and `createdAt` are unchanged, and each text field is overwritten by the supplied value when its key is present (even with an empty string) and keeps its value when the key is absent. An empty update changes nothing. |
| `Service.FindOwnId` | src/service.ts:36-38 | With increasing identifiers, looking up the identifier of the record at position i finds exactly that record at position i. |
| `Service.FindAppended` | src/service.ts:20-38 | A record appended with an identifier above all present ones is what a lookup of that identifier returns (create followed by get). |
| `Service.WithoutIsSplice` | src/service.ts:41-43 | With increasing identifiers, `splice(index, 1)` at the record's position equals removing every record with its identifier. |
| `Service.WithoutAbsent` | src/service.ts:41-46 | Removing an identifier that no record has leaves the sequence unchanged. |
| `Service.IdsUnique` | src/service.ts:22 | Under the ordering invariant, no position other than i holds the identifier at position i. |
| `Service.SpliceKeepsOrder` | src/service.ts:43 | Removing one element keeps identifiers strictly increasing, positive and below the counter. |
| `Service.Store.constructor` | src/service.ts:11-12 | The initial state has an empty array, a counter at 1 and satisfies the invariant. |
| `Service.Store.Reset` | src/service.ts:14-18 | `resetBlogs` leaves the array empty and the counter at 1, with the invariant re-established. |
| `Service.Store.Create` | src/service.ts:20-30 | `createBlog` returns a record carrying the old counter as id, the given fields and timestamp. The counter goes up by exactly 1. The record is appended after the unchanged earlier records. Its id exceeds every earlier id. A lookup of it returns it. The invariant is kept. |
| `Service.Store.GetAll` | src/service.ts:32-34 | `getAllBlogs` returns the records in array order, with strictly increasing identifiers. |
| `Service.Store.GetById` | src/service.ts:36-38 | `getBlogById` returns nothing exactly when no record has the identifier. Otherwise it returns a stored record with that identifier, and that record is the only one with it. |
| `Service.Store.Delete` | src/service.ts:40-47 | `deleteBlog` returns true exactly when the identifier was present. The new array is the old one without that record, in the same relative order. It equals the old array spliced at one position whose record has the id, and is one shorter. Other records remain. A later lookup finds nothing. The counter is unchanged, so the id is never reused. An absent id changes nothing. |
| `Service.Store.Update` | src/service.ts:49-59 | `updateBlog` returns nothing exactly when the identifier is absent, and then the store is unchanged. Otherwise it returns the found record with the update applied. Exactly that record is replaced in place, and every other record, the length, the order and the counter stay as they were. A later lookup returns the updated record. |
| `Scenarios.CreateTwice` | src/__tests__/service.test.ts:28-55 | After a reset, two creates receive ids 1 and 2, and listing returns both in creation order. |
| `Scenarios.DeleteFirstOfTwo` | src/__tests__/service.test.ts:87-96 | Deleting the first of two records succeeds and leaves one record, with id 2. |
| `Scenarios.UpdateTitleOnly` | src/__tests__/service.test.ts:100-138 | Updating only the title changes the title and keeps content, id and createdAt. A later lookup returns the updated record. |
| `Scenarios.MissingId` | src/__tests__/service.test.ts:67-126 | Runs the three separate non-existent-id tests (lines 67-70, 82-85, 123-126) in turn on one empty store: on id 999, which was never assigned, lookup returns nothing, delete returns false and update returns nothing. The store stays empty. |
| `Scenarios.RepeatUpdate` | src/service.ts:49-59 | From any valid store, for any identifier and update, a second identical update returns what the first returned and leaves the records and the counter exactly as the first left them. |
| `Scenarios.NoReuseAfterDelete` | src/service.ts:20-46 | After the record with id 1 is deleted, the next create receives id 2, not 1. |

## Left out

- `src/index.ts` (Express routes, request validation, status codes, `app.listen`, the port from the environment, the SIGINT handler) is not part of this model. It is HTTP and process plumbing over a framework.
- Parsing `:id` with `Number(...)`, and NaN or fractional identifiers: lookups take any `int`, and JavaScript number semantics at the HTTP boundary are not modelled.
- Identifiers and the counter are unbounded naturals. The loss of integer precision above 2^53 in a JavaScript `number` is not modelled.
- The wall clock (`new Date()`): the timestamp is a parameter of `Create`.
- Reference aliasing: `getAllBlogs` returns the backing array itself, and `createBlog`/`getBlogById`/`updateBlog` return the live record object that callers may mutate later (the record `createBlog` returns is the one a later `updateBlog` changes in place). The model returns values, so mutation through such aliases is not captured. The in-place `Object.assign` is modelled as replacing the record at its position.
- Service.Store.Update: the update carries only `title`, `content` and `author`, each absent or a string. The source's type `Partial<Omit<Blog, "id" | "createdAt">>` (src/service.ts:51) does not exclude an explicit `undefined` value (src/index.ts:48 passes one for every key the request omits) or an argument that also carries `id` or `createdAt`. `Object.assign` copies both, and the model captures neither.
- `Create`, `Delete`, `Update`, `GetAll` and `GetById` require `Valid()`; the constructor and `Reset` establish it from any state. In the source the module state is private to `src/service.ts`. Apart from writes through the aliases listed above, only these six functions touch it, so the invariant holds between calls as long as no caller changes the array or a record's `id` through these aliases and no update object carries an `id` key.
