/**
 * Request and response shapes (app/schemas.py) and the field constraints
 * the request parser enforces before any handler runs.
 */
module Schemas {
  import opened Common

  /** `max_length` of a book's title and author. */
  const MaxNameLength: nat := 255
  const MinRating: int := 1
  const MaxRating: int := 5

  /** Body of POST/PUT /books. */
  datatype BookCreate = BookCreate(title: string, author: string)

  /** A stored book, and the `Book` response: exactly id, title and author. */
  datatype Book = Book(id: int, title: string, author: string)

  /** Body of POST/PUT /reviews; `rating` may be left out. */
  datatype ReviewCreate = ReviewCreate(text: string, rating: Option<int>, bookId: int)

  /** A stored review, and the `Review` response. */
  datatype Review = Review(id: int, text: string, rating: Option<int>, bookId: int)

  /** GET /books/{id}: the book's fields plus its reviews. */
  datatype BookWithReviews = BookWithReviews(id: int, title: string, author: string, reviews: seq<Review>)

  predicate ValidTitle(title: string) { 1 <= |title| <= MaxNameLength }

  predicate ValidAuthor(author: string) { 1 <= |author| <= MaxNameLength }

  predicate ValidText(text: string) { 1 <= |text| }

  predicate ValidRating(rating: Option<int>) {
    rating.None? || MinRating <= rating.value <= MaxRating
  }

  predicate ValidBookCreate(b: BookCreate) { ValidTitle(b.title) && ValidAuthor(b.author) }

  predicate ValidReviewCreate(r: ReviewCreate) { ValidText(r.text) && ValidRating(r.rating) }

  /** Outcome of parsing a request body: the typed request, or the names of the offending fields. */
  datatype Parsed<+T> = Valid(value: T) | Invalid(fields: seq<string>)

  function Report(field: string, ok: bool): seq<string> {
    if ok then [] else [field]
  }

  /**
   * Parses a BookCreate body whose fields may be missing (`None`).
   * Every field that is missing or out of bounds is reported, and only those.
   */
  function ParseBookCreate(title: Option<string>, author: Option<string>): (r: Parsed<BookCreate>)
    ensures r.Valid? <==> title.Some? && author.Some? && ValidTitle(title.value) && ValidAuthor(author.value)
    ensures r.Valid? ==> ValidBookCreate(r.value) && r.value == BookCreate(title.value, author.value)
    ensures r.Invalid? ==> r.fields != []
    ensures r.Invalid? ==> ("title" in r.fields <==> !(title.Some? && ValidTitle(title.value)))
    ensures r.Invalid? ==> ("author" in r.fields <==> !(author.Some? && ValidAuthor(author.value)))
  {
    var errors :=
      Report("title", title.Some? && ValidTitle(title.value))
      + Report("author", author.Some? && ValidAuthor(author.value));
    if errors == [] then Valid(BookCreate(title.value, author.value)) else Invalid(errors)
  }

  /**
   * Parses a ReviewCreate body. `text` and `book_id` are required; an absent
   * rating is `None`, which is valid.
   */
  function ParseReviewCreate(text: Option<string>, rating: Option<int>, bookId: Option<int>): (r: Parsed<ReviewCreate>)
    ensures r.Valid? <==> text.Some? && ValidText(text.value) && ValidRating(rating) && bookId.Some?
    ensures r.Valid? ==> ValidReviewCreate(r.value) && r.value == ReviewCreate(text.value, rating, bookId.value)
    ensures r.Invalid? ==> r.fields != []
    ensures r.Invalid? ==> ("text" in r.fields <==> !(text.Some? && ValidText(text.value)))
    ensures r.Invalid? ==> ("rating" in r.fields <==> !ValidRating(rating))
    ensures r.Invalid? ==> ("book_id" in r.fields <==> bookId.None?)
  {
    var errors :=
      Report("text", text.Some? && ValidText(text.value))
      + Report("rating", ValidRating(rating))
      + Report("book_id", bookId.Some?);
    if errors == [] then Valid(ReviewCreate(text.value, rating, bookId.value)) else Invalid(errors)
  }
}
