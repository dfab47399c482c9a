# Users and files API, modelled in Dafny

The application exposes two edge route handlers:

- `/api/users` keeps a users table (id, email, name, created and updated
  times) in a SQLite-style database. GET fetches one user by id or lists them
  all, newest first. POST creates a user. PUT patches the name and/or email.
  DELETE removes a user.
- `/api/files` is a gateway to an object store. GET downloads one object by
  key, or lists up to 100 objects under a prefix. POST uploads, either as a
  multipart form or as a raw body keyed by the `X-File-Key` header. DELETE
  removes an object.

Each handler is modelled as a function from the store's state and the parsed
request to a reply: an HTTP status, a JSON body and the store afterwards.
The errors are modelled as well as the happy paths. Validation failures give
400, missing records 404, duplicate emails on create 409, and store failures
500; a request whose body cannot be parsed also gives 500.

Where the handler works step by step, the model does too:

- PUT builds its SQL `SET` list and its bound values one field at a time.
  `UsersRoute.Update` is that method, proved equal to the field-patch
  specification `UsersRoute.UpdateOutcome`.
- The file upload assigns `key`, `data` and `httpMetadata` per input shape
  and then calls `put` on a `Bucket` object. `FilesRoute.Upload` is that
  method, proved against `FilesRoute.UploadOutcome`.

Modules:

- `Wrappers`: `Option` and `Result`.
- `Text`: the JavaScript string behaviour the handlers rely on. This covers
  truthiness of an optional string, `includes`, decimal rendering with its
  reading back, `join`, counting `?` placeholders, and the last `/` segment
  (`split('/').pop()`).
- `UserSql`: the text of the UPDATE statement and its placeholder count.
- `UserTable`: the users table and the five statements the handlers send.
  Each store call takes a `Fault` argument; `Some(message)` means the call
  throws.
- `UsersRoute`: the four users handlers, the properties across requests, and
  the `UserDirectory` class holding the table across sequential requests.
- `ObjectStore`: stored objects and their metadata, listing pages, and the
  `Bucket` class with `head`, `put` and `delete`.
- `FilesRoute`: the three files handlers and the properties across requests.

## Model

| member | source | states |
|---|---|---|
| `Text.IncludesIff` | app/api/files/route.ts:133 | `includes(sub)` holds exactly when `sub` occurs at some position of the string |
| `Text.DecimalRoundTrip` | app/api/files/route.ts:65 | reading back the decimal rendering of a size (`String(object.size)`) gives that size |
| `Text.AfterLast` | app/api/files/route.ts:69 | `split('/').pop()` is a suffix of the key with no `/` in it, and it is preceded by a `/` whenever it is shorter than the key |
| `Text.AfterLastWhole` | app/api/files/route.ts:69 | a key without `/` is its own file name |
| `UserSql.UpdatePlaceholders` | app/api/users/route.ts:186 | the UPDATE text has one placeholder per `?` in its SET fragments, plus one for `WHERE id = ?` |
| `UserSql.SetNamePlaceholders` | app/api/users/route.ts:166 | the `name = ?` fragment has exactly one placeholder |
| `UserSql.SetEmailPlaceholders` | app/api/users/route.ts:170 | the `email = ?` fragment has exactly one placeholder |
| `UserSql.TouchPlaceholders` | app/api/users/route.ts:182 | the `updated_at = datetime('now')` fragment binds nothing |
| `UserTable.SelectById` | app/api/users/route.ts:49-53 | `SELECT ... WHERE id = ?` fails exactly when the store throws. Otherwise it returns a row exactly when the id is in the table, and that row is the one stored under that id, carrying that id |
| `UserTable.AllNewestFirst` | app/api/users/route.ts:68-70 | `SELECT * ... ORDER BY created_at DESC` returns every row exactly once, nothing else, newest first |
| `UserTable.SortIsNewestFirst` | app/api/users/route.ts:69 | sorting by descending creation time yields a newest-first order and keeps the ids distinct |
| `UserTable.InsertReturning` | app/api/users/route.ts:112-116 | `INSERT ... RETURNING *` succeeds exactly when the store does not throw and the email is free. With a free email the only other error is the unique violation. On success the new row has the next id, positive and unused, with the given email and name and both times set to now; it is added to the table and nothing else changes, and the table stays valid |
| `UserTable.UpdateReturning` | app/api/users/route.ts:185-189 | `UPDATE ... RETURNING *` fails when the store throws or the bound values do not match the placeholders. When the id bound last names no row, it returns no row and changes nothing. When it names a row, the SET list applies and the patched email is free, it succeeds with the patched row, which replaces that row. A returned row is the SET list applied to the row with the bound id, its email is not used by another row, and only that row changes. A unique violation happens only when the patched email is used by another row. The table stays valid |
| `UserTable.DeleteById` | app/api/users/route.ts:243-245 | `DELETE ... WHERE id = ?` succeeds exactly when the store does not throw, and then removes only that row and keeps the table valid |
| `UsersRoute.Get` | app/api/users/route.ts:38-85 | with an id: 200 with that user, or 404 "User not found". Without one: 200 with every user once, newest first, and their count. A store error gives 500 |
| `UsersRoute.Create` | app/api/users/route.ts:92-137 | 400 exactly when email or name is missing or empty; 409 exactly when the email is taken; 500 on an unparsable body or a store error; 201 adds one user with the next id, the given fields and the current time, and nothing else changes |
| `UsersRoute.UpdateOutcome` | app/api/users/route.ts:144-206 | 400 exactly when the id is missing or 0 or no field is supplied. An unparsable body or a store error on a valid request gives 500. 404 exactly when the id is unknown. On 200 only the supplied fields change and `updated_at` is refreshed. A duplicate email gives 500 (never 409), and nothing gives 201 |
| `UsersRoute.SuppliedSetsPlaceholders` | app/api/users/route.ts:165-172 | the SET list built from the supplied fields has as many placeholders as values bound to it |
| `UsersRoute.SuppliedSetsApply` | app/api/users/route.ts:165-183 | running that SET list, with `updated_at` appended, on a row patches exactly the supplied fields and refreshes `updated_at` |
| `UsersRoute.StatementBindsAll` | app/api/users/route.ts:162-188 | the statement PUT sends binds exactly one value per placeholder, the id last |
| `UsersRoute.StatementMeansPatch` | app/api/users/route.ts:162-198 | the reply PUT derives from what the store does with its UPDATE is the field-patch outcome |
| `UsersRoute.Update` | app/api/users/route.ts:144-206 | the step-by-step handler gives the field-patch outcome. It sends a statement exactly when validation passes, and that statement ends with the `updated_at` assignment, binds the id last, and has as many placeholders as values |
| `UsersRoute.Delete` | app/api/users/route.ts:212-258 | 400 exactly when the id is missing; 404 exactly when it is unknown; 200 removes only that user and echoes its id; a store error on either call gives 500 and leaves the table unchanged |
| `UsersRoute.CreateThenGet` | app/api/users/route.ts:112-121 | a user just created can be fetched by its id, with a positive id and the email and name given |
| `UsersRoute.DuplicateCreateConflicts` | app/api/users/route.ts:123-128 | creating a second user with a taken email is answered 409 and adds nothing |
| `UsersRoute.DeleteTwice` | app/api/users/route.ts:229-240 | after a delete, deleting the same id again is answered 404 |
| `UsersRoute.UserDirectory.HandleGet` | app/api/users/route.ts:38-85 | a GET on the held table answers as `Get` does and leaves the table alone |
| `UsersRoute.UserDirectory.HandlePost` | app/api/users/route.ts:92-137 | a POST replaces the held table with the one `Create` gives and keeps it valid |
| `UsersRoute.UserDirectory.HandlePut` | app/api/users/route.ts:144-206 | a PUT replaces the held table with the one `UpdateOutcome` gives and keeps it valid |
| `UsersRoute.UserDirectory.HandleDelete` | app/api/users/route.ts:212-258 | a DELETE replaces the held table with the one `Delete` gives and keeps it valid |
| `ObjectStore.Bucket.Head` | app/api/files/route.ts:223 | `head(key)` gives the metadata of the object stored at `key`, or nothing when there is none |
| `ObjectStore.Bucket.Put` | app/api/files/route.ts:173-180 | `put` stores the object at its key, replacing any earlier one and no other, and returns its metadata |
| `ObjectStore.Bucket.Delete` | app/api/files/route.ts:235 | `delete(key)` removes that key and nothing else |
| `FilesRoute.DownloadHeadersMeaning` | app/api/files/route.ts:63-69 | the download sets four headers: the stored content type or `application/octet-stream`, the decimal length of the body, the quoted etag, and an attachment named after the key's last segment |
| `FilesRoute.Download` | app/api/files/route.ts:53-107 | 404 echoing the key when nothing is stored there. 500 when `get` throws, or when a header value is one `Headers.set` refuses. A stored key whose header values are accepted gives exactly 200 with the stored bytes and the download headers, and 200 happens in no other case |
| `FilesRoute.DispositionAccepted` | app/api/files/route.ts:69 | the `Content-Disposition` value is accepted exactly when the file name is |
| `FilesRoute.LineBreakInNameRefused` | app/api/files/route.ts:64-107 | a stored key whose last segment holds a line break is answered 500 "Storage operation failed" on download |
| `FilesRoute.ListReply` | app/api/files/route.ts:78-99 | a listing has one summary per entry of the page, in order, with its count and truncation flag; the cursor is present exactly when the page is truncated; a failed `list` gives 500 |
| `FilesRoute.ListPrefix` | app/api/files/route.ts:45 | the listing prefix is the `prefix` parameter when non-empty, and otherwise matches every key |
| `FilesRoute.Get` | app/api/files/route.ts:41-108 | a non-empty `key` downloads. Otherwise the handler lists: a failed `list` gives 500, and a page the store produced for the listing prefix and limit 100 gives a reply that lists the bucket under that prefix |
| `FilesRoute.ListingContract` | app/api/files/route.ts:78-99 | a listing built from a page the store produced holds at most 100 entries and no key twice. Each entry is a stored object under the prefix, with its stored size, etag and upload time. It is truncated exactly when some object under the prefix is missing from it, and then it carries a cursor |
| `FilesRoute.EmptyBucketListing` | app/api/files/route.ts:78-99 | listing an empty bucket gives no entries and is not truncated |
| `FilesRoute.ShapeOf` | app/api/files/route.ts:127-133 | a request is a form upload exactly when its `Content-Type` (empty when absent) contains `multipart/form-data`; a form upload carries the request's parsed form, and a raw upload carries its `X-File-Key`, its `Content-Type` (empty when absent) and its body |
| `FilesRoute.PayloadOf` | app/api/files/route.ts:133-168 | a form upload with no `file`, or an empty text `file`, gives 400. A text `file` otherwise gives 500, and so does a body that is not a form. A file is keyed by `path`, else by `uploads/<millis>-<file name>`, and typed by the file's type. A raw upload gives 400 without `X-File-Key`; otherwise it is keyed by it and typed by `Content-Type`, else `application/octet-stream` |
| `FilesRoute.UploadOutcome` | app/api/files/route.ts:123-200 | an invalid payload is answered with exactly that payload's error reply. 201 exactly when the payload is valid and `put` succeeds. The object is then stored at its key with the upload time as custom metadata, every other key is untouched, and the reply gives the key, the byte size, the etag and the download link. Every other outcome leaves the bucket unchanged |
| `FilesRoute.UploadThenDownload` | app/api/files/route.ts:173-191 | after a successful upload, downloading the linked key gives 200 exactly when its header values are accepted, and 500 otherwise. On 200 it gives back the same bytes, the recorded content type, and a `Content-Length` equal to the reported size |
| `FilesRoute.Upload` | app/api/files/route.ts:123-200 | the step-by-step handler replies and changes the bucket exactly as `UploadOutcome` says |
| `FilesRoute.DeleteOutcome` | app/api/files/route.ts:206-248 | 400 exactly when the key is missing or empty; 404 exactly when nothing is stored there, echoing the key; 200 removes only that key and echoes it; a failing `head` or `delete` gives 500; the bucket changes only on 200 |
| `FilesRoute.Delete` | app/api/files/route.ts:206-248 | the step-by-step handler (`head`, then `delete`) replies and changes the bucket exactly as `DeleteOutcome` says |
| `FilesRoute.DeleteThenGone` | app/api/files/route.ts:223-240 | after a delete, downloading the key and deleting it again are both answered 404 |

## Left out

- The sample `/api/hello` route and every page and component: they are presentation only.
- Runtime access (`getRequestContext`), `Response.json` serialisation and `console.error` logging. A reply is a datatype.
- Query-string parsing. The users handlers take the `id` parameter already parsed to an `Option<int>`, with `None` for an absent or empty parameter. `parseInt`'s leniency (`"12abc"` reads as 12, `"abc"` as NaN) is not modelled.
- `UserTable.UpdateReturning`, `UserTable.InsertReturning`: the classification of store errors modelled as a structured unique violation. The handler looks for the text `UNIQUE constraint failed` in the error message. The model derives the violation from the table's data, and every other store failure comes from the `Fault` argument.
- The table schema, which the repository does not contain. The model assumes ids come from an increasing counter starting at 1, emails are unique, and `created_at` and `updated_at` are set to the request time on insert. Timestamps are integers supplied by the caller; times of equal value make "newest first" order between them unspecified.
- The object store's own behaviour beyond its contract. The order of a listing page (only the page predicate `IsPage` is stated), cursor values, etag computation and upload times are parameters.
- ISO-8601 rendering of times (`toISOString`). The upload time is a given string; listing times are integers.
- `encodeURIComponent` in the upload reply's link. The link is modelled as the key it refers to (`DownloadLink`).
- Streaming. A stored body and a download are byte sequences. The `'stream'` size the handler can report never arises, because both upload shapes read the whole body.
- A `path` form field that holds a file rather than text, and a failing read of a raw body (`arrayBuffer()`): the model treats both as impossible.
- What a listing reports of an object's HTTP and custom metadata. `list` is called without `include`, so the store need not return them. A listing entry's `customMetadata` is passed on as the store gave it, and the model promises nothing about it.
- The text of errors the runtime raises itself: a refused header value and a text-valued `file` field. Their `details` are fixed stand-in strings (`InvalidHeaderValue`, `NotAFile`).
- The trimming of leading and trailing whitespace that `Headers.set` applies to a value. Only its refusal of NUL, CR, LF and code points above U+00FF is modelled.
- Concurrency between requests: the handlers are modelled as running one at a time.
