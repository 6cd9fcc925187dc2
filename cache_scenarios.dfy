/**
 * The cache integration scenarios of tests/test_cache.py, each replayed on
 * a fresh store with the in-memory cache installed as the dependency, and
 * the start-up case where Redis cannot be reached.
 */
module CacheScenarios {
  import opened Common
  import opened Json
  import opened Schemas
  import opened Store
  import opened Dependencies
  import opened MockCache
  import opened Injection
  import opened Books

  /** A one-book store lists exactly that book. */
  lemma SingleBookListing(books: map<int, Book>, b: Book)
    requires books == map[b.id := b]
    ensures ListingJson(books).items == [BookJson(b)]
  {
    var rows := Rows(books);
    assert |rows| == 1 && rows[0] in books.Values;
    assert BookFromJson(ListingJson(books).items[0]) == Some(b);
  }

  /** An empty store lists nothing. */
  lemma EmptyListing()
    ensures ListingJson(map[]) == JArr([])
  {
    assert |ListingJson(map[]).items| == 0;
  }

  /** POST /books with a working in-memory cache: the book is stored and the list key is gone. */
  method AddBook(db: Db, mock: MockCacheService, book: BookCreate) returns (created: Book)
    requires db.Valid() && ValidBookCreate(book) && !mock.simulateFailure
    modifies db, mock
    ensures db.Valid() && created.id !in old(db.books)
    ensures db.books == old(db.books)[created.id := created] && db.reviews == old(db.reviews)
    ensures created.title == book.title && created.author == book.author
    ensures !mock.simulateFailure && mock.cache == old(mock.cache) - {BooksKey}
    ensures mock.deleteCalls == old(mock.deleteCalls) + 1
    ensures mock.getCalls == old(mock.getCalls) && mock.setCalls == old(mock.setCalls)
  {
    created := CreateBook(db, Mock(mock), book, false);
  }

  /** PUT /books/{id} of a stored book with a working in-memory cache. */
  method ReplaceBook(db: Db, mock: MockCacheService, bookId: int, book: BookCreate) returns (updated: Book)
    requires db.Valid() && ValidBookCreate(book) && !mock.simulateFailure && bookId in db.books
    modifies db, mock
    ensures db.Valid() && db.books == old(db.books)[bookId := updated]
    ensures updated == Book(bookId, book.title, book.author)
    ensures !mock.simulateFailure && mock.cache == old(mock.cache) - {BooksKey}
    ensures mock.deleteCalls == old(mock.deleteCalls) + 1
  {
    var r := UpdateBook(db, Mock(mock), bookId, book, false);
    updated := r.value;
  }

  /** DELETE /books/{id} of a stored book without reviews, with a working in-memory cache. */
  method RemoveBook(db: Db, mock: MockCacheService, bookId: int)
    requires db.Valid() && !mock.simulateFailure && bookId in db.books
    requires forall id :: id in db.reviews ==> db.reviews[id].bookId != bookId
    modifies db, mock
    ensures db.Valid() && db.books == old(db.books) - {bookId}
    ensures !mock.simulateFailure && mock.cache == old(mock.cache) - {BooksKey}
    ensures mock.deleteCalls == old(mock.deleteCalls) + 1
  {
    NoReviewsIff(db.reviews, bookId);
    var _ := DeleteBook(db, Mock(mock), bookId, false);
  }

  /** GET /books when the in-memory cache does not hold the key: the store's listing, now cached. */
  method ListOnMiss(db: Db, mock: MockCacheService) returns (data: Json)
    requires db.Valid() && !mock.simulateFailure && BooksKey !in mock.cache
    modifies mock
    ensures db.Valid() && data == ListingJson(db.books)
    ensures !mock.simulateFailure && mock.cache == old(mock.cache)[BooksKey := data]
    ensures mock.getCalls == old(mock.getCalls) + 1 && mock.setCalls == old(mock.setCalls) + 1
    ensures mock.deleteCalls == old(mock.deleteCalls)
  {
    data := GetBooks(db, Mock(mock), false, false);
  }

  /** A fresh store and working in-memory cache, after POST /books with one book. */
  method SeedOne(book: BookCreate) returns (db: Db, mock: MockCacheService, created: Book)
    requires ValidBookCreate(book)
    ensures fresh(db) && fresh(mock)
    ensures db.Valid() && db.books == map[created.id := created] && db.reviews == map[]
    ensures created.title == book.title && created.author == book.author
    ensures !mock.simulateFailure && mock.cache == map[]
    ensures mock.getCalls == 0 && mock.setCalls == 0 && mock.deleteCalls == 1
  {
    db := new Db();
    mock := new MockCacheService(false);
    created := AddBook(db, mock, book);
  }

  /** `SeedOne`, then GET /books: the one-book listing is now cached. */
  method SeedAndList(book: BookCreate) returns (db: Db, mock: MockCacheService, created: Book, listed: Json)
    requires ValidBookCreate(book)
    ensures fresh(db) && fresh(mock)
    ensures db.Valid() && db.books == map[created.id := created] && db.reviews == map[]
    ensures created.title == book.title && created.author == book.author
    ensures listed == JArr([BookJson(created)])
    ensures !mock.simulateFailure && mock.cache == map[BooksKey := listed]
    ensures mock.getCalls == 1 && mock.setCalls == 1 && mock.deleteCalls == 1
  {
    db, mock, created := SeedOne(book);
    listed := ListOnMiss(db, mock);
    SingleBookListing(db.books, created);
  }

  /** Cache hit: the second read is served from the cache and equals the first. */
  method CacheHit() returns (first: Json, second: Json, getCalls: nat, setCalls: nat)
    ensures first.JArr? && |first.items| == 1
    ensures second == first
    ensures getCalls >= 2 && setCalls >= 1
  {
    var db, mock, created;
    db, mock, created, first := SeedAndList(BookCreate("Test Book", "Test Author"));
    assert Truthy(first);
    second := GetBooks(db, Mock(mock), false, false);
    getCalls, setCalls := mock.getCalls, mock.setCalls;
  }

  /** Cache miss: with the dictionary cleared, the read comes from the store and refills the cache. */
  method CacheMiss() returns (data: Json, cached: Json)
    ensures data.JArr? && |data.items| == 1
    ensures BookFromJson(data.items[0]).Some?
    ensures BookFromJson(data.items[0]).value.title == "Test Book"
    ensures BookFromJson(data.items[0]).value.author == "Test Author"
    ensures cached == data
  {
    var db, mock, created := SeedOne(BookCreate("Test Book", "Test Author"));
    mock.cache := map[];
    data := ListOnMiss(db, mock);
    SingleBookListing(db.books, created);
    cached := mock.Get(BooksKey);
  }

  /** A cache that fails every call: the read still answers from the store. */
  method FailureFallback() returns (data: Json, getCalls: nat, setCalls: nat)
    ensures data.JArr? && |data.items| == 1
    ensures BookFromJson(data.items[0]).Some?
    ensures BookFromJson(data.items[0]).value.title == "Test Book"
    ensures BookFromJson(data.items[0]).value.author == "Test Author"
    ensures getCalls >= 1 && setCalls >= 1
  {
    var db := new Db();
    var mock := new MockCacheService(true);
    var created := CreateBook(db, Mock(mock), BookCreate("Test Book", "Test Author"), false);
    data := GetBooks(db, Mock(mock), false, false);
    SingleBookListing(db.books, created);
    getCalls, setCalls := mock.getCalls, mock.setCalls;
  }

  /** Invalidation on create: after a second book, the next read lists both, not the cached one. */
  method InvalidationOnCreate() returns (cachedBefore: Json, data: Json, deleteCalls: nat)
    ensures cachedBefore.JArr? && |cachedBefore.items| == 1
    ensures deleteCalls >= 1
    ensures data.JArr? && |data.items| == 2
  {
    var db, mock, first, listed := SeedAndList(BookCreate("First Book", "First Author"));
    cachedBefore := mock.Get(BooksKey);
    var second := AddBook(db, mock, BookCreate("Second Book", "Second Author"));
    assert db.books == map[first.id := first][second.id := second];
    assert |db.books| == 2;
    data := ListOnMiss(db, mock);
    deleteCalls := mock.deleteCalls;
  }

  /** Invalidation on update: the next read shows the new title and author. */
  method InvalidationOnUpdate() returns (data: Json, deleteCalls: nat)
    ensures deleteCalls >= 1
    ensures data.JArr? && |data.items| == 1
    ensures BookFromJson(data.items[0]).Some?
    ensures BookFromJson(data.items[0]).value.title == "Updated Book"
    ensures BookFromJson(data.items[0]).value.author == "Updated Author"
  {
    var db, mock, created, _ := SeedAndList(BookCreate("Test Book", "Test Author"));
    var book := ReplaceBook(db, mock, created.id, BookCreate("Updated Book", "Updated Author"));
    assert db.books == map[created.id := book];
    data := ListOnMiss(db, mock);
    SingleBookListing(db.books, book);
    deleteCalls := mock.deleteCalls;
  }

  /** Invalidation on delete: the next read is empty. */
  method InvalidationOnDelete() returns (data: Json, deleteCalls: nat)
    ensures deleteCalls >= 1
    ensures data == JArr([])
  {
    var db, mock, created, _ := SeedAndList(BookCreate("Test Book", "Test Author"));
    RemoveBook(db, mock, created.id);
    assert db.books == map[];
    data := ListOnMiss(db, mock);
    EmptyListing();
    deleteCalls := mock.deleteCalls;
  }

  /** POST /books, then GET /books, through a client that never connected. */
  method ListWithoutRedis(service: CacheService, getFails: bool, setFails: bool, deleteFails: bool) returns (data: Json)
    requires !service.connected
    modifies service
    ensures data.JArr? && |data.items| == 1
    ensures BookFromJson(data.items[0]).Some?
    ensures BookFromJson(data.items[0]).value.title == "Test Book"
    ensures BookFromJson(data.items[0]).value.author == "Test Author"
  {
    var db := new Db();
    var created := CreateBook(db, Redis(service), BookCreate("Test Book", "Test Author"), deleteFails);
    assert db.books == map[created.id := created];
    assert !Reachable(Redis(service).State());
    data := GetBooks(db, Redis(service), getFails, setFails);
    SingleBookListing(db.books, created);
  }

  /**
   * Redis unreachable at start-up: the service still starts, every request
   * gets the same client, and reads answer from the store whatever the
   * cache calls do.
   */
  method RedisDownAtStartup(getFails: bool, setFails: bool, deleteFails: bool) returns (data: Json, instance: CacheService)
    ensures !instance.connected
    ensures data.JArr? && |data.items| == 1
    ensures BookFromJson(data.items[0]).Some?
    ensures BookFromJson(data.items[0]).value.title == "Test Book"
    ensures BookFromJson(data.items[0]).value.author == "Test Author"
  {
    var provider := new Provider(false, map[]);
    instance := provider.GetCache();
    var again := provider.GetCache();
    assert again == instance;
    data := ListWithoutRedis(instance, getFails, setFails, deleteFails);
  }
}
