/**
 * The /reviews handlers (app/routers/reviews.py). Reads go straight to the
 * store; every successful write deletes "books:all" as well, although no
 * review is part of the cached book list.
 */
module Reviews {
  import opened Common
  import opened Schemas
  import opened Store
  import opened Injection
  import opened Books

  /** Deleting "books:all" never breaks coherence, whether or not the delete went through. */
  lemma ReviewInvalidationKeepsCoherence(books: map<int, Book>, s: CacheState, fails: bool)
    ensures Coherent(books, s) ==> Coherent(books, AfterDelete(s, BooksKey, fails))
  {
  }

  /** POST /reviews: the book must exist; then a new review under a fresh id, then invalidate. */
  method CreateReview(db: Db, cache: CacheDep, review: ReviewCreate, deleteFails: bool)
    returns (r: Response<Review>)
    requires db.Valid() && ValidReviewCreate(review)
    modifies db, cache.Footprint()
    ensures db.Valid()
    ensures db.books == old(db.books)
    ensures review.bookId !in old(db.books) ==>
              r == NotFound("Book not found") && db.reviews == old(db.reviews)
              && cache.State() == old(cache.State())
    ensures review.bookId in old(db.books) ==>
              && r.Ok?
              && r.value.id !in old(db.reviews)
              && r.value == Review(r.value.id, review.text, review.rating, review.bookId)
              && db.reviews == old(db.reviews)[r.value.id := r.value]
              && cache.State() == AfterDelete(old(cache.State()), BooksKey, deleteFails)
    ensures Coherent(db.books, old(cache.State())) ==> Coherent(db.books, cache.State())
  {
    if review.bookId !in db.books {
      return NotFound("Book not found");
    }
    var id := FreshId(db.reviews.Keys);
    var created := Review(id, review.text, review.rating, review.bookId);
    db.reviews := db.reviews[id := created];
    assert db !in cache.Footprint();
    var _ := CacheDelete(cache, BooksKey, deleteFails);
    ReviewInvalidationKeepsCoherence(db.books, old(cache.State()), deleteFails);
    r := Ok(created);
  }

  /** GET /reviews: every review, in id order. */
  function GetReviews(db: Db): (r: seq<Review>)
    requires db.Valid()
    reads db
    ensures |r| == |db.reviews|
    ensures forall x :: x in r <==> x in db.reviews.Values
    ensures forall i, j :: 0 <= i < j < |r| ==> r[i].id < r[j].id
  {
    RowsHoldValues(db.reviews);
    RowsAscending(db.reviews);
    Rows(db.reviews)
  }

  /** GET /reviews/{id}. */
  function GetReview(db: Db, reviewId: int): (r: Response<Review>)
    requires db.Valid()
    reads db
    ensures r.Ok? <==> reviewId in db.reviews
    ensures r.Ok? ==> r.value == db.reviews[reviewId] && r.value.id == reviewId
    ensures r.NotFound? ==> r.detail == "Review not found"
  {
    if reviewId in db.reviews then Ok(db.reviews[reviewId]) else NotFound("Review not found")
  }

  /** GET /reviews/book/{id}: the book must exist; then exactly its reviews, in id order. */
  function GetReviewsByBook(db: Db, bookId: int): (r: Response<seq<Review>>)
    requires db.Valid()
    reads db
    ensures r.Ok? <==> bookId in db.books
    ensures r.NotFound? ==> r.detail == "Book not found"
    ensures r.Ok? ==> forall x :: x in r.value <==> x in db.reviews.Values && x.bookId == bookId
    ensures r.Ok? ==> forall i, j :: 0 <= i < j < |r.value| ==> r.value[i].id < r.value[j].id
  {
    if bookId !in db.books then NotFound("Book not found")
    else Ok(ReviewsOf(db.reviews, bookId))
  }

  /**
   * PUT /reviews/{id}: the review is looked up first, the target book second;
   * then text, rating and book are overwritten and the list invalidated.
   */
  method UpdateReview(db: Db, cache: CacheDep, reviewId: int, review: ReviewCreate, deleteFails: bool)
    returns (r: Response<Review>)
    requires db.Valid() && ValidReviewCreate(review)
    modifies db, cache.Footprint()
    ensures db.Valid()
    ensures db.books == old(db.books)
    ensures reviewId !in old(db.reviews) ==> r == NotFound("Review not found")
    ensures reviewId in old(db.reviews) && review.bookId !in old(db.books) ==> r == NotFound("Book not found")
    ensures r.NotFound? ==> db.reviews == old(db.reviews) && cache.State() == old(cache.State())
    ensures reviewId in old(db.reviews) && review.bookId in old(db.books) ==>
              && r == Ok(Review(reviewId, review.text, review.rating, review.bookId))
              && db.reviews == old(db.reviews)[reviewId := r.value]
              && cache.State() == AfterDelete(old(cache.State()), BooksKey, deleteFails)
    ensures Coherent(db.books, old(cache.State())) ==> Coherent(db.books, cache.State())
  {
    if reviewId !in db.reviews {
      return NotFound("Review not found");
    }
    if review.bookId !in db.books {
      return NotFound("Book not found");
    }
    var updated := Review(reviewId, review.text, review.rating, review.bookId);
    db.reviews := db.reviews[reviewId := updated];
    assert db !in cache.Footprint();
    var _ := CacheDelete(cache, BooksKey, deleteFails);
    ReviewInvalidationKeepsCoherence(db.books, old(cache.State()), deleteFails);
    r := Ok(updated);
  }

  /** DELETE /reviews/{id}: remove only that review, then invalidate. */
  method DeleteReview(db: Db, cache: CacheDep, reviewId: int, deleteFails: bool) returns (r: Response<()>)
    requires db.Valid()
    modifies db, cache.Footprint()
    ensures db.Valid()
    ensures db.books == old(db.books)
    ensures reviewId !in old(db.reviews) ==>
              r == NotFound("Review not found") && db.reviews == old(db.reviews)
              && cache.State() == old(cache.State())
    ensures reviewId in old(db.reviews) ==>
              r == Ok(()) && db.reviews == old(db.reviews) - {reviewId}
              && cache.State() == AfterDelete(old(cache.State()), BooksKey, deleteFails)
    ensures r.Ok? ==> GetReview(db, reviewId) == NotFound("Review not found")
    ensures Coherent(db.books, old(cache.State())) ==> Coherent(db.books, cache.State())
  {
    if reviewId !in db.reviews {
      return NotFound("Review not found");
    }
    db.reviews := db.reviews - {reviewId};
    assert db !in cache.Footprint();
    var _ := CacheDelete(cache, BooksKey, deleteFails);
    ReviewInvalidationKeepsCoherence(db.books, old(cache.State()), deleteFails);
    r := Ok(());
  }
}
