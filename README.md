# Book catalogue cache-aside model

A Dafny model of the book-and-review service's caching core. It covers:

- the Redis-backed `CacheService` client, which fails open;
- its process-wide singleton;
- the in-memory `MockCacheService` that the cache tests install instead;
- the `/books` and `/reviews` handlers;
- the request-field constraints.

The central object is the aggregate key `"books:all"`. `GET /books` reads it through the cache. Every successful book or review write deletes it after the store change.

## Modules

- **Common**: `Option`, and `Response`: `Ok(value)`, `NotFound(detail)` for the 404 `HTTPException`, or `Failed(error)` for an exception the handler does not catch.
- **Json**: the documents the cache stores.
  - Cached values are JSON. `JNull` is also Python's `None`.
  - The text form of JSON is replaced by a token stream.
  - `Decode(Encode(v)) == Some(v)` is proved by induction on the value.
  - `Truthy` is Python truthiness. An empty list is false.
- **Schemas**: the request and response records, and the field constraints:
  - title and author must be 1–255 characters;
  - review text must be non-empty;
  - the rating is absent or between 1 and 5;
  - `book_id` is required.
  - Each parser reports exactly the fields that fail.
- **Store**: the two tables as maps from id to row, held by the `Db` class. Its invariant: each row is stored under its own id, and every review's `book_id` names a stored book (the not-null foreign key).
  - The model lists rows in ascending id order. The code has no ORDER BY; this is what SQLite's rowid tables do.
  - A new row gets the largest id plus one, or 1 in an empty table.
  - A filtered query keeps the scan order.
- **Dependencies**: the `CacheService` class.
  - `connected` is fixed by the constructor, which never raises.
  - `get`, `set` and `delete` return `None` or `False` when disconnected, and also when the backend raises.
  - A backend failure is a `fails` argument chosen by the caller.
  - Also here: the `CACHE_TTL` default of 300, and `get_cache`, which returns the same instance every time.
- **MockCache**: the dictionary-backed test double. It has a `simulate_failure` mode and three call counters.
- **Injection**: the cache a handler receives, which is either the Redis client or the test double.
  - One abstract `CacheState` describes both, with pure transition functions for get, set and delete.
  - Read-back lemmas: after a successful `set`, `get` returns the value written; after a successful `delete`, `get` finds nothing; other keys are untouched.
- **Books**: the `/books` handlers and the coherence invariant.
  - `Coherent(books, s)` holds when the cache cannot be reached, or holds no truthy `"books:all"`, or holds exactly the store's listing.
  - `get_books` never breaks coherence.
  - A book write restores coherence whenever its `delete` goes through.
  - A swallowed `delete` failure lets later reads serve the old listing.
- **Reviews**: the `/reviews` handlers.
  - They check existence first: for `update_review`, the review before the book.
  - They delete `"books:all"` although no review is in the listing, so they preserve coherence whatever the `delete` does.
- **CacheScenarios**: the cache tests of `tests/test_cache.py`, replayed as client methods against the test double. The test's assertions are the methods' postconditions. The start-up case where Redis cannot be reached is modelled as well.

Three behaviours of the code are easy to misread. The model follows the code:

- Deleting a book that has reviews fails.
  - The `reviews` relationship (app/models.py:18) declares no delete cascade, so the flush sets each review's `book_id` to NULL.
  - The column is declared not null (app/models.py:24), so the commit at app/routers/books.py:83 raises.
  - Nothing is stored, and `"books:all"` is not deleted. `Books.DeleteBook` answers `Failed` in that case.
  - So every stored review always names a stored book, which is part of `Store.Db.Valid`.
- There is no in-memory fallback cache when Redis is down, although the log message at app/dependencies.py:33 mentions one. Every operation simply returns `None` or `False`.
- A failed invalidation is swallowed (app/dependencies.py:69-71), so a later read can serve a listing older than the store. `Books.SwallowedInvalidationServesStale` proves this.

## Model

| member | source | states |
|---|---|---|
| Json.Truthy | app/routers/books.py:29 | a decoded value is false exactly when it is `None`, `0`, `""`, `[]` or `{}`; a list is true exactly when it has an element, so an empty cached listing counts as a miss |
| Json.Encode | app/dependencies.py:55 | `json.dumps` never produces an empty text, so the `if value` test in `get` never takes a stored document for a miss |
| Json.Decode | app/dependencies.py:43 | the token-stream decoder that stands for `json.loads` accepts a stream only when it is exactly the encoding of the value it returns |
| Json.ParseIsPrefix | app/dependencies.py:43 | what the parser consumes from the front of a stream is the encoding of the value it returns |
| Json.ParseItemsIsPrefix | app/dependencies.py:43 | reading n array elements returns n elements and consumes exactly their encodings |
| Json.ParseFieldsIsPrefix | app/dependencies.py:43 | reading n object members returns n members and consumes exactly their encodings |
| Json.DecodeIffEncode | app/dependencies.py:43-55 | for the token-stream decoder, a stream decodes to `v` if and only if it is the encoding of `v` |
| Json.DecodeEncode | app/dependencies.py:41-56 | `json.loads(json.dumps(v))` gives back `v` for every modelled document: decoding an encoding yields the value and nothing else |
| Json.ParseEncode | app/dependencies.py:43-55 | parsing the encoding of a value followed by any tokens returns the value and exactly those remaining tokens |
| Json.ParseItemsEncode | app/dependencies.py:43-55 | parsing the encodings of an array's elements returns the elements and the remaining tokens |
| Json.ParseFieldsEncode | app/dependencies.py:43-55 | parsing the encodings of an object's key/value pairs returns the pairs and the remaining tokens |
| Schemas.ParseBookCreate | app/schemas.py:5-10 | a book body is accepted exactly when title and author are both present with length 1–255; otherwise the error names exactly the failing fields |
| Schemas.ParseReviewCreate | app/schemas.py:19-24 | a review body is accepted exactly when text is non-empty, rating is absent or within 1–5, and `book_id` is present; otherwise exactly the failing fields are named |
| Store.SortedIds | app/routers/books.py:33 | a full scan lists every id of the table and no other, with as many entries as there are ids, so none twice |
| Store.SortedIdsAscending | app/routers/books.py:33 | the scan lists ids in strictly increasing order |
| Store.FreshId | app/routers/books.py:14-17 | the id given to a new row is not in use and exceeds every id in use; it is 1 in an empty table |
| Store.Rows | app/routers/reviews.py:39 | `query(...).all()` returns one row per table entry, each a stored row, every stored row included |
| Store.RowsAscending | app/routers/reviews.py:39 | when rows are stored under their ids, the scan returns them in ascending id order |
| Store.ForBook | app/routers/reviews.py:64 | the `book_id` filter keeps exactly the rows of that book; applied to a scan in ascending id order, its result is in ascending id order too |
| Store.ForBookNone | app/routers/reviews.py:64 | when no row belongs to the book, the filter returns the empty list |
| Store.RowsHoldValues | app/routers/reviews.py:39 | the scan holds exactly the stored rows |
| Store.ReviewsOf | app/routers/reviews.py:64 | a book's reviews are exactly the stored reviews carrying its `book_id`; they are in ascending id order when rows are stored under their ids |
| Store.NoReviewsIff | app/routers/books.py:82-83 | a book has no reviews exactly when no stored review carries its id, which is when deleting it can commit |
| Store.Db.constructor | tests/test_cache.py:67-72 | a fresh database has empty tables and satisfies the invariant: rows are keyed by their ids, and every review names a stored book |
| Dependencies.TtlValue | app/dependencies.py:54 | an explicit ttl is sent as given, however small; an omitted one is the 300-second default |
| Dependencies.Lookup | app/dependencies.py:42-43 | a missing key, and a value that does not decode, read as `None`; a key holding the encoding of `v` reads as `v` |
| Dependencies.SetThenGet | app/dependencies.py:41-56 | a value written by SETEX of its JSON is read back by GET and `json.loads` unchanged, whatever the ttl |
| Dependencies.OtherKeysKept | app/dependencies.py:55-67 | SETEX or DEL of one key leaves what every other key reads back unchanged |
| Dependencies.CacheService.constructor | app/dependencies.py:21-34 | construction never fails; the client is connected exactly when the ping succeeded, and the key space is what the server holds |
| Dependencies.CacheService.Get | app/dependencies.py:36-46 | disconnected or failing: `None` and no change; otherwise the decoded stored value, with a missing, empty or undecodable value read as `None` |
| Dependencies.CacheService.Set | app/dependencies.py:48-59 | returns true exactly when connected, not failing and the ttl (explicit, else 300) is positive; only then the key holds the encoded value with that ttl; otherwise the key space is unchanged |
| Dependencies.CacheService.Delete | app/dependencies.py:61-71 | returns true exactly when connected and not failing, whether or not the key existed, and then the key is absent; otherwise the key space is unchanged |
| Dependencies.Provider.constructor | app/dependencies.py:73-74 | the module builds one cache client at load time |
| Dependencies.Provider.GetCache | app/dependencies.py:76-78 | every call returns the same single instance |
| MockCache.MockCacheService.constructor | tests/test_cache.py:35-40 | empty dictionary, the given failure mode, all counters zero |
| MockCache.MockCacheService.Get | tests/test_cache.py:42-46 | adds one to the get counter only; returns `None` in failure mode, else the stored value or `None`; the dictionary is unchanged |
| MockCache.MockCacheService.Set | tests/test_cache.py:48-53 | adds one to the set counter only; in failure mode returns false and changes nothing, else stores or overwrites the value and returns true |
| MockCache.MockCacheService.Delete | tests/test_cache.py:55-61 | adds one to the delete counter only; in failure mode returns false and changes nothing, else removes the key if present and returns true either way |
| Injection.Fetch | app/dependencies.py:36-46 | an unreachable cache yields `None`; a live call yields exactly what the cache holds |
| Injection.GetObservesOnly | tests/test_cache.py:42-46 | a `get` changes nothing that reachability or a later `get` can observe |
| Injection.SetReadBack | app/dependencies.py:48-59 | after a `set` that succeeds, the key reads back the value written; after one that fails, the key reads back what it held before |
| Injection.DeleteReadBack | app/dependencies.py:61-71 | after a live `delete` the key reads as `None`; after a failed one it reads as before |
| Injection.OtherKeysUntouched | app/dependencies.py:55-67 | `set` and `delete` on one key leave every other key's value as it was, on both backends |
| Injection.CacheGet | app/dependencies.py:76-78 | the injected dependency's `get` returns what `Fetch` says and moves its state as the get transition says |
| Injection.CacheSet | app/dependencies.py:76-78 | the injected dependency's `set` reports success exactly when the set transition succeeds, and moves its state accordingly |
| Injection.CacheDelete | app/dependencies.py:76-78 | the injected dependency's `delete` reports success exactly when the call is live, and moves its state as the delete transition says |
| Books.BookJson | app/routers/books.py:34 | the projection of a book has exactly the three fields id, title and author, and reads back as that book |
| Books.Project | app/routers/books.py:34 | the list comprehension yields one element per row, in order, each reading back as its row |
| Books.ListingJson | app/routers/books.py:33-34 | the listing is a list with one element per stored book, the i-th reading back as the i-th row of the scan |
| Books.ListingMatchesStore | app/routers/books.py:33-34 | every listed element is a stored book, and every stored book is listed |
| Books.ServeBooks | app/routers/books.py:28-39 | `get_books` answers the store's listing whenever the cache is coherent, and whenever it is unreachable |
| Books.AfterServe | app/routers/books.py:28-37 | after `get_books`, reachability is unchanged; `"books:all"` holds the listing when the read missed and the `set` succeeded, and otherwise holds what it held |
| Books.ServeLeavesOtherKeys | app/routers/books.py:28-37 | a read leaves every other cache key as it was |
| Books.ServeKeepsCoherence | app/routers/books.py:28-39 | a read leaves a coherent cache coherent: it stores only the current listing |
| Books.MissRefillsCache | app/routers/books.py:33-37 | after a miss and a `set` that succeeds, `"books:all"` holds the listing just served |
| Books.EmptyCatalogueAlwaysMisses | app/routers/books.py:28-30 | with no books and a coherent cache, the cached value is never truthy, so every read goes to the store |
| Books.InvalidationRestoresCoherence | app/routers/books.py:16-20 | a `delete` of `"books:all"` that goes through, or an unreachable cache, leaves the cache coherent with any store |
| Books.ReadAfterInvalidation | app/routers/books.py:19-30 | after a write whose invalidation went through, the next read answers the current store |
| Books.SwallowedInvalidationServesStale | app/dependencies.py:66-71 | when a reachable cache's `delete` raises and the error is swallowed, later reads serve the old listing and coherence is lost |
| Books.CreateBook | app/routers/books.py:11-22 | adds exactly one book with a fresh id and the given title and author; other books and all reviews are unchanged; the cache takes one `delete`; coherence holds afterwards when that delete goes through; the new book has no reviews |
| Books.GetBooks | app/routers/books.py:24-39 | answers what `ServeBooks` says; the store is untouched; the cache moves by one `get`, and on a miss by one `set` of the listing |
| Books.GetBook | app/routers/books.py:41-50 | not found with "Book not found" exactly when the id is absent; otherwise the book's id, title and author with exactly its reviews, each once and in ascending id order |
| Books.NewBookHasNoReviews | app/schemas.py:34-35 | an id no book has has no reviews while every review names a stored book, which `Store.Db.Valid` keeps |
| Books.UpdateBook | app/routers/books.py:52-70 | missing id: "Book not found" and nothing changes, the cache included; otherwise title and author are overwritten under the same id, other books are kept, the key is deleted, and coherence holds when the delete goes through |
| Books.DeleteBook | app/routers/books.py:72-88 | missing id: "Book not found" and nothing changes; a book with reviews: the commit fails on the not-null `book_id`, and neither store nor cache changes; otherwise only that book is removed, the key is deleted, a later `get_book` is not found, and coherence holds when the delete goes through |
| Reviews.ReviewInvalidationKeepsCoherence | app/routers/reviews.py:31-32 | deleting `"books:all"` keeps a coherent cache coherent, whether the delete succeeds or fails |
| Reviews.CreateReview | app/routers/reviews.py:11-34 | a missing book gives "Book not found" and leaves store and cache untouched; otherwise exactly one review is added under a fresh id with the given text, rating and book, the key is deleted, and coherence is preserved |
| Reviews.GetReviews | app/routers/reviews.py:36-40 | every stored review exactly once, in ascending id order |
| Reviews.GetReview | app/routers/reviews.py:42-51 | "Review not found" exactly when the id is absent; otherwise the stored review |
| Reviews.GetReviewsByBook | app/routers/reviews.py:53-65 | "Book not found" exactly when the book is absent; otherwise exactly the reviews with that `book_id`, in ascending id order |
| Reviews.UpdateReview | app/routers/reviews.py:67-94 | the review is checked before the book ("Review not found" wins); either failure changes nothing; otherwise text, rating and book are overwritten under the same id, the key is deleted, and coherence is preserved |
| Reviews.DeleteReview | app/routers/reviews.py:96-112 | missing id: "Review not found" and nothing changes; otherwise only that review is removed, the key is deleted, a later `get_review` is not found, and coherence is preserved |
| CacheScenarios.CacheHit | tests/test_cache.py:75-97 | the first read lists the one book; the second read returns the very same cached value; at least two gets and one set were made |
| CacheScenarios.CacheMiss | tests/test_cache.py:99-124 | after the dictionary is cleared, the read lists the one book with its title and author, and the cache then holds that same listing |
| CacheScenarios.FailureFallback | tests/test_cache.py:126-146 | with a cache that fails every call, the read still lists the book with its title and author, and a get and a set were attempted |
| CacheScenarios.InvalidationOnCreate | tests/test_cache.py:148-175 | before the second create the cache holds a one-book listing; the create makes a `delete` call, and the next read lists two books |
| CacheScenarios.InvalidationOnUpdate | tests/test_cache.py:177-202 | after the update the next read shows the new title and author, not the cached ones |
| CacheScenarios.InvalidationOnDelete | tests/test_cache.py:204-226 | after the delete the next read is the empty list, not the cached one |
| CacheScenarios.RedisDownAtStartup | app/dependencies.py:25-34 | with Redis unreachable at start-up, the client `get_cache` hands out is disconnected, and a read after a create lists that one book with its title and author, whatever the cache calls would have done |

## Left out

- The Redis protocol, the connection URL and the environment overrides of `REDIS_URL` and `CACHE_TTL`: the backend is a map of keys to encoded values with their ttl, and 300 is the fixed default.
- Expiry by TTL needs a clock. The ttl is only recorded with each entry, and no entry ever expires.
- JSON text: documents are a token stream, so malformed text appears only as a token stream `Decode` rejects.
- Which exceptions occur: any backend failure is the caller-chosen `fails` flag, one per call.
- A Redis `delete` or SETEX that raises after the server already applied it (a reply timeout, say) is not modelled: a failed call changes nothing. No coherence result depends on this for `set`, since the value `set` writes is the current listing.
- SQLAlchemy sessions, `add`/`commit`/`refresh`, and commit failures other than the not-null `book_id` one in `delete_book`: each handler's store change is one atomic map update.
- Row order and id assignment: the queries at app/routers/books.py:33 and app/routers/reviews.py:39 and :64 have no ORDER BY, the `book.reviews` relationship returned at app/routers/books.py:50 has no `order_by` (app/models.py:18), and ids come from the database. The model fixes ascending id order and largest-id-plus-one, as SQLite's rowid tables behave; the code itself promises neither.
- `app/models.py` columns (`description`, `created_at`, and Review columns that disagree with the routers): the routers' and schemas' fields are followed.
- FastAPI wiring: routing, status codes, and the `response_model` re-validation of a cached value. Request validation happens before a handler runs, so handlers require valid bodies and the parsers are modelled separately.
- The nested `/books/{id}/reviews` tests, which target routes the routers do not define.
- Concurrency, including the read-after-invalidate race between a writer and a concurrent reader.
- Logging.
- Json.Decode: it is a decoder over token streams, not `json.loads` on text. Python's `json.loads` keeps only the last of duplicate object keys, where this decoder keeps every pair. It also returns booleans and floats, which the `Json` type does not have. The handlers only ever write encodings of modelled values.
