/**
 * The /books handlers (app/routers/books.py) and the cache-aside policy
 * around the aggregate key "books:all": list reads go through the cache,
 * every successful book write deletes the key after the store commit.
 */
module Books {
  import opened Common
  import opened Json
  import opened Schemas
  import opened Store
  import opened Injection

  /** The one cache key the service uses. */
  const BooksKey: string := "books:all"

  /** The store's error when a flush would set a review's `book_id` to NULL. */
  const ReviewBookNotNull: string := "NOT NULL constraint failed: reviews.book_id"

  /** Reads a `Book` response back from one element of the cached list. */
  function BookFromJson(j: Json): Option<Book> {
    match j
    case JObj(fs) =>
      if |fs| == 3 && fs[0].key == "id" && fs[1].key == "title" && fs[2].key == "author"
         && fs[0].val.JInt? && fs[1].val.JStr? && fs[2].val.JStr?
      then Some(Book(fs[0].val.i, fs[1].val.s, fs[2].val.s))
      else None
    case _ => None
  }

  /** One element of the list `get_books` builds: the book's id, title and author, nothing else. */
  function BookJson(b: Book): (j: Json)
    ensures BookFromJson(j) == Some(b)
    ensures j.JObj? && |j.fields| == 3
  {
    JObj([Field("id", JInt(b.id)), Field("title", JStr(b.title)), Field("author", JStr(b.author))])
  }

  /** The list comprehension of `get_books`: each row projected, in order. */
  function Project(rows: seq<Book>): (items: seq<Json>)
    ensures |items| == |rows|
    ensures forall i :: 0 <= i < |rows| ==> BookFromJson(items[i]) == Some(rows[i])
  {
    if rows == [] then [] else [BookJson(rows[0])] + Project(rows[1..])
  }

  /**
   * The list `get_books` builds from the store: one element per book, in id
   * order, each decoding back to exactly that book.
   */
  function ListingJson(books: map<int, Book>): (r: Json)
    ensures r.JArr? && |r.items| == |books| == |Rows(books)|
    ensures forall i :: 0 <= i < |r.items| ==> BookFromJson(r.items[i]) == Some(Rows(books)[i])
  {
    JArr(Project(Rows(books)))
  }

  /** The listing holds every stored book and nothing else. */
  lemma ListingMatchesStore(books: map<int, Book>)
    ensures forall i :: 0 <= i < |ListingJson(books).items| ==>
              BookFromJson(ListingJson(books).items[i]).Some?
              && BookFromJson(ListingJson(books).items[i]).value in books.Values
    ensures forall b :: b in books.Values ==>
              exists i :: 0 <= i < |ListingJson(books).items| && BookFromJson(ListingJson(books).items[i]) == Some(b)
  {
    var rows := Rows(books);
    var items := ListingJson(books).items;
    forall b | b in books.Values
      ensures exists i :: 0 <= i < |items| && BookFromJson(items[i]) == Some(b)
    {
      var id :| id in books && books[id] == b;
      var i :| 0 <= i < |rows| && rows[i] == b;
      assert BookFromJson(items[i]) == Some(b);
    }
  }

  /**
   * The cache agrees with the store: whenever the cache can be reached and
   * holds a value that `get_books` would serve, that value is the store's listing.
   */
  ghost predicate Coherent(books: map<int, Book>, s: CacheState) {
    Reachable(s) && Truthy(Peek(s, BooksKey)) ==> Peek(s, BooksKey) == ListingJson(books)
  }

  /** What `get_books` answers: a truthy cached value verbatim, otherwise the store's listing. */
  function ServeBooks(books: map<int, Book>, s: CacheState, getFails: bool): (r: Json)
    ensures Coherent(books, s) ==> r == ListingJson(books)
    ensures !Reachable(s) ==> r == ListingJson(books)
  {
    var hit := Fetch(s, BooksKey, getFails);
    if Truthy(hit) then hit else ListingJson(books)
  }

  /**
   * The cache after `get_books`: one `get`, and on a miss one `set` of the
   * listing without an explicit expiry (so the default one).
   */
  function AfterServe(books: map<int, Book>, s: CacheState, getFails: bool, setFails: bool): (s': CacheState)
    ensures Reachable(s') == Reachable(s)
    ensures Peek(s', BooksKey) ==
              if !Truthy(Fetch(s, BooksKey, getFails)) && SetSucceeds(s, None, setFails) then ListingJson(books)
              else Peek(s, BooksKey)
  {
    GetObservesOnly(s, BooksKey);
    SetReadBack(AfterGet(s), BooksKey, ListingJson(books), None, setFails);
    if Truthy(Fetch(s, BooksKey, getFails)) then AfterGet(s)
    else AfterSet(AfterGet(s), BooksKey, ListingJson(books), None, setFails)
  }

  /** A read touches no key but "books:all". */
  lemma ServeLeavesOtherKeys(books: map<int, Book>, s: CacheState, getFails: bool, setFails: bool, key: string)
    requires key != BooksKey
    ensures Peek(AfterServe(books, s, getFails, setFails), key) == Peek(s, key)
  {
    GetObservesOnly(s, key);
    OtherKeysUntouched(AfterGet(s), BooksKey, key, ListingJson(books), None, setFails);
  }

  /** A read never makes a coherent cache incoherent: it only stores the current listing. */
  lemma ServeKeepsCoherence(books: map<int, Book>, s: CacheState, getFails: bool, setFails: bool)
    requires Coherent(books, s)
    ensures Coherent(books, AfterServe(books, s, getFails, setFails))
  {
    GetObservesOnly(s, BooksKey);
    SetReadBack(AfterGet(s), BooksKey, ListingJson(books), None, setFails);
  }

  /** A miss followed by a `set` that goes through leaves the listing in the cache. */
  lemma MissRefillsCache(books: map<int, Book>, s: CacheState, getFails: bool, setFails: bool)
    requires !Truthy(Fetch(s, BooksKey, getFails)) && SetSucceeds(s, None, setFails)
    ensures Peek(AfterServe(books, s, getFails, setFails), BooksKey) == ListingJson(books)
  {
    SetReadBack(AfterGet(s), BooksKey, ListingJson(books), None, setFails);
  }

  /** Deleting the key (successfully) makes the cache agree with any store. */
  lemma InvalidationRestoresCoherence(books: map<int, Book>, s: CacheState, fails: bool)
    requires Live(s, fails) || !Reachable(s)
    ensures Coherent(books, AfterDelete(s, BooksKey, fails))
  {
  }

  /**
   * After a write whose invalidation went through, the next `get_books`
   * answers the current store, not an earlier snapshot.
   */
  lemma ReadAfterInvalidation(books: map<int, Book>, s: CacheState, deleteFails: bool, getFails: bool)
    requires Live(s, deleteFails) || !Reachable(s)
    ensures ServeBooks(books, AfterDelete(s, BooksKey, deleteFails), getFails) == ListingJson(books)
  {
    InvalidationRestoresCoherence(books, s, deleteFails);
  }

  /**
   * A `delete` that raises on a connected cache is swallowed, and the old
   * listing stays in the cache: later reads serve it although the store changed.
   */
  lemma SwallowedInvalidationServesStale(before: map<int, Book>, after: map<int, Book>, s: CacheState, deleteFails: bool)
    requires Reachable(s) && !Live(s, deleteFails)
    requires Peek(s, BooksKey) == ListingJson(before) && before != map[]
    requires ListingJson(after) != ListingJson(before)
    ensures ServeBooks(after, AfterDelete(s, BooksKey, deleteFails), false) == ListingJson(before)
    ensures !Coherent(after, AfterDelete(s, BooksKey, deleteFails))
  {
    var s' := AfterDelete(s, BooksKey, deleteFails);
    DeleteReadBack(s, BooksKey, deleteFails);
    assert |ListingJson(before).items| != 0;
    assert Truthy(Peek(s', BooksKey));
    assert Fetch(s', BooksKey, false) == ListingJson(before);
  }

  /** An empty list is falsy: with no books, `get_books` never serves from the cache. */
  lemma EmptyCatalogueAlwaysMisses(s: CacheState, getFails: bool)
    requires Coherent(map[], s)
    ensures !Truthy(Fetch(s, BooksKey, getFails))
  {
    assert ListingJson(map[]).items == [];
  }

  /** POST /books: store a new book under a fresh id, then invalidate the list. */
  method CreateBook(db: Db, cache: CacheDep, book: BookCreate, deleteFails: bool) returns (created: Book)
    requires db.Valid() && ValidBookCreate(book)
    modifies db, cache.Footprint()
    ensures db.Valid()
    ensures created.id !in old(db.books)
    ensures created == Book(created.id, book.title, book.author)
    ensures db.books == old(db.books)[created.id := created]
    ensures db.reviews == old(db.reviews)
    ensures ReviewsOf(db.reviews, created.id) == []
    ensures cache.State() == AfterDelete(old(cache.State()), BooksKey, deleteFails)
    ensures Live(old(cache.State()), deleteFails) || !Reachable(old(cache.State())) ==>
              Coherent(db.books, cache.State())
  {
    var id := FreshId(db.books.Keys);
    var books, reviews := db.books, db.reviews;
    created := Book(id, book.title, book.author);
    db.books := db.books[id := created];
    assert db !in cache.Footprint();
    var _ := CacheDelete(cache, BooksKey, deleteFails);
    if Live(old(cache.State()), deleteFails) || !Reachable(old(cache.State())) {
      InvalidationRestoresCoherence(db.books, old(cache.State()), deleteFails);
    }
    assert db.reviews == reviews;
    NewBookHasNoReviews(books, reviews, id);
  }

  /** GET /books: read-through on "books:all"; a failed `set` does not change the answer. */
  method GetBooks(db: Db, cache: CacheDep, getFails: bool, setFails: bool) returns (r: Json)
    requires db.Valid()
    modifies cache.Footprint()
    ensures db.Valid()
    ensures r == ServeBooks(db.books, old(cache.State()), getFails)
    ensures cache.State() == AfterServe(db.books, old(cache.State()), getFails, setFails)
  {
    var cached := CacheGet(cache, BooksKey, getFails);
    if Truthy(cached) {
      return cached;
    }
    r := ListingJson(db.books);
    var _ := CacheSet(cache, BooksKey, r, None, setFails);
  }

  /** GET /books/{id}: the book with its reviews, straight from the store. */
  function GetBook(db: Db, bookId: int): (r: Response<BookWithReviews>)
    requires db.Valid()
    reads db
    ensures r.Ok? <==> bookId in db.books
    ensures r.NotFound? ==> r.detail == "Book not found"
    ensures r.Ok? ==> r.value.id == bookId
                      && r.value.title == db.books[bookId].title
                      && r.value.author == db.books[bookId].author
    ensures r.Ok? ==> forall x :: x in r.value.reviews <==> x in db.reviews.Values && x.bookId == bookId
    ensures r.Ok? ==> forall i, j :: 0 <= i < j < |r.value.reviews| ==>
                        r.value.reviews[i].id < r.value.reviews[j].id
  {
    if bookId !in db.books then NotFound("Book not found")
    else
      var b := db.books[bookId];
      Ok(BookWithReviews(b.id, b.title, b.author, ReviewsOf(db.reviews, bookId)))
  }

  /**
   * A book read right after it was created has no reviews, provided every
   * stored review points at a stored book. (Without a cascade, deleting a
   * book can leave reviews behind under an id a later book may get again.)
   */
  lemma NewBookHasNoReviews(books: map<int, Book>, reviews: map<int, Review>, bookId: int)
    requires bookId !in books
    requires forall id :: id in reviews ==> reviews[id].bookId in books
    ensures ReviewsOf(reviews, bookId) == []
  {
    NoReviewsIff(reviews, bookId);
  }

  /** PUT /books/{id}: overwrite title and author, keep the id, then invalidate. */
  method UpdateBook(db: Db, cache: CacheDep, bookId: int, book: BookCreate, deleteFails: bool)
    returns (r: Response<Book>)
    requires db.Valid() && ValidBookCreate(book)
    modifies db, cache.Footprint()
    ensures db.Valid()
    ensures db.reviews == old(db.reviews)
    ensures bookId !in old(db.books) ==>
              r == NotFound("Book not found") && db.books == old(db.books)
              && cache.State() == old(cache.State())
    ensures bookId in old(db.books) ==>
              r == Ok(Book(bookId, book.title, book.author))
              && db.books == old(db.books)[bookId := r.value]
              && cache.State() == AfterDelete(old(cache.State()), BooksKey, deleteFails)
    ensures r.Ok? && (Live(old(cache.State()), deleteFails) || !Reachable(old(cache.State()))) ==>
              Coherent(db.books, cache.State())
  {
    if bookId !in db.books {
      return NotFound("Book not found");
    }
    var updated := Book(bookId, book.title, book.author);
    db.books := db.books[bookId := updated];
    assert db !in cache.Footprint();
    var _ := CacheDelete(cache, BooksKey, deleteFails);
    if Live(old(cache.State()), deleteFails) || !Reachable(old(cache.State())) {
      InvalidationRestoresCoherence(db.books, old(cache.State()), deleteFails);
    }
    r := Ok(updated);
  }

  /**
   * DELETE /books/{id}: remove only that book, then invalidate. The book's
   * `reviews` relationship declares no delete cascade, so for a book that
   * has reviews the flush sets their `book_id` to NULL, which the NOT NULL
   * column refuses: the commit raises, nothing is stored, and the cache is
   * not touched.
   */
  method DeleteBook(db: Db, cache: CacheDep, bookId: int, deleteFails: bool) returns (r: Response<()>)
    requires db.Valid()
    modifies db, cache.Footprint()
    ensures db.Valid()
    ensures db.reviews == old(db.reviews)
    ensures bookId !in old(db.books) ==>
              r == NotFound("Book not found") && db.books == old(db.books)
              && cache.State() == old(cache.State())
    ensures bookId in old(db.books) && ReviewsOf(old(db.reviews), bookId) != [] ==>
              r == Failed(ReviewBookNotNull) && db.books == old(db.books)
              && cache.State() == old(cache.State())
    ensures bookId in old(db.books) && ReviewsOf(old(db.reviews), bookId) == [] ==>
              r == Ok(()) && db.books == old(db.books) - {bookId}
              && cache.State() == AfterDelete(old(cache.State()), BooksKey, deleteFails)
    ensures r.Ok? ==> GetBook(db, bookId) == NotFound("Book not found")
    ensures r.Ok? && (Live(old(cache.State()), deleteFails) || !Reachable(old(cache.State()))) ==>
              Coherent(db.books, cache.State())
  {
    if bookId !in db.books {
      return NotFound("Book not found");
    }
    var reviews := db.reviews;
    if exists id :: id in reviews && reviews[id].bookId == bookId {
      return Failed(ReviewBookNotNull);
    }
    db.books := db.books - {bookId};
    assert db !in cache.Footprint();
    var _ := CacheDelete(cache, BooksKey, deleteFails);
    if Live(old(cache.State()), deleteFails) || !Reachable(old(cache.State())) {
      InvalidationRestoresCoherence(db.books, old(cache.State()), deleteFails);
    }
    assert db.reviews == reviews;
    NoReviewsIff(reviews, bookId);
    r := Ok(());
  }
}
