/**
 * The relational store behind the handlers: a table of books and a table
 * of reviews keyed by id. The queries carry no ORDER BY and leave ids to
 * the database; the model fixes what SQLite's rowid tables do: a full-table
 * query returns rows in ascending id order, and a new row gets the largest
 * id plus one (1 in an empty table).
 */
module Store {
  import opened Schemas

  /** A set is empty or has an element. */
  lemma EmptyOrElement(s: set<int>)
    ensures s == {} || exists x :: x in s
  {
    if forall x :: x !in s {
      assert s == {};
    }
  }

  /** A non-empty set of ids has a least element. */
  lemma {:induction false} MinExists(ids: set<int>)
    requires ids != {}
    ensures exists m :: m in ids && forall x :: x in ids ==> m <= x
  {
    EmptyOrElement(ids);
    var y :| y in ids;
    var others := ids - {y};
    var k := y;
    if others != {} {
      MinExists(others);
      var m :| m in others && forall x :: x in others ==> m <= x;
      k := if y < m then y else m;
    }
    forall x | x in ids
      ensures k <= x
    {
      if x != y {
        assert x in others;
      }
    }
    assert k in ids;
  }

  function MinOf(ids: set<int>): (m: int)
    requires ids != {}
    ensures m in ids && forall x :: x in ids ==> m <= x
  {
    MinExists(ids);
    var m :| m in ids && forall x :: x in ids ==> m <= x;
    m
  }

  /** The ids in ascending order: the order of a full-table scan. */
  function SortedIds(ids: set<int>): (r: seq<int>)
    ensures |r| == |ids|
    ensures forall i :: 0 <= i < |r| ==> r[i] in ids
    ensures forall id :: id in ids ==> id in r
    decreases ids
  {
    if ids == {} then []
    else
      var m := MinOf(ids);
      var rest := SortedIds(ids - {m});
      assert forall id :: id in ids ==> id == m || id in ids - {m};
      [m] + rest
  }

  /** Each element is smaller than every element after it. */
  predicate Ascending(s: seq<int>) {
    forall i, j :: 0 <= i < j < |s| ==> s[i] < s[j]
  }

  /** Putting an element smaller than all of an ascending sequence in front keeps it ascending. */
  lemma ConsAscending(m: int, rest: seq<int>)
    requires Ascending(rest)
    requires forall k :: 0 <= k < |rest| ==> m < rest[k]
    ensures Ascending([m] + rest)
  {
    var r := [m] + rest;
    forall i, j | 0 <= i < j < |r|
      ensures r[i] < r[j]
    {
      assert r[j] == rest[j - 1];
      if i > 0 {
        assert r[i] == rest[i - 1];
      }
    }
  }

  /** A full-table scan yields the ids in strictly increasing order. */
  lemma {:induction false} SortedIdsAscending(ids: set<int>)
    ensures Ascending(SortedIds(ids))
    decreases ids
  {
    if ids != {} {
      var m := MinOf(ids);
      var rest := SortedIds(ids - {m});
      SortedIdsAscending(ids - {m});
      assert forall k :: 0 <= k < |rest| ==> rest[k] in ids - {m};
      ConsAscending(m, rest);
    }
  }

  /** The last id of a non-empty `SortedIds` is the largest. */
  lemma SortedIdsLastIsMax(ids: set<int>)
    requires ids != {}
    ensures forall id :: id in ids ==> id <= SortedIds(ids)[|ids| - 1]
  {
    var r := SortedIds(ids);
    SortedIdsAscending(ids);
    forall id | id in ids
      ensures id <= r[|r| - 1]
    {
      var k :| 0 <= k < |r| && r[k] == id;
      if k < |r| - 1 {
        assert r[k] < r[|r| - 1];
      }
    }
  }

  /** The id the store assigns to a new row. */
  function FreshId(ids: set<int>): (r: int)
    ensures r !in ids
    ensures forall id :: id in ids ==> id < r
    ensures ids == {} ==> r == 1
  {
    if ids == {} then 1
    else
      var sorted := SortedIds(ids);
      SortedIdsLastIsMax(ids);
      sorted[|sorted| - 1] + 1
  }

  /** The rows stored under `ids`, in that order. */
  function RowsAt<T>(table: map<int, T>, ids: seq<int>): (r: seq<T>)
    requires forall i :: 0 <= i < |ids| ==> ids[i] in table
    ensures |r| == |ids|
    ensures forall i :: 0 <= i < |ids| ==> r[i] == table[ids[i]]
    ensures forall id :: id in ids ==> table[id] in r
  {
    if ids == [] then []
    else
      var rest := RowsAt(table, ids[1..]);
      assert forall id :: id in ids ==> id == ids[0] || id in ids[1..];
      [table[ids[0]]] + rest
  }

  /** All rows of a table, in ascending id order. */
  function Rows<T(==)>(table: map<int, T>): (r: seq<T>)
    ensures |r| == |table|
    ensures forall i :: 0 <= i < |r| ==> r[i] in table.Values
    ensures forall id :: id in table ==> table[id] in r
  {
    RowsAt(table, SortedIds(table.Keys))
  }

  /** The reviews among `rows` that belong to book `bookId`, in their order. */
  function ForBook(rows: seq<Review>, bookId: int): (r: seq<Review>)
    ensures forall x :: x in r <==> x in rows && x.bookId == bookId
    ensures (forall i, j :: 0 <= i < j < |rows| ==> rows[i].id < rows[j].id) ==>
              forall i, j :: 0 <= i < j < |r| ==> r[i].id < r[j].id
  {
    if rows == [] then []
    else
      var rest := ForBook(rows[1..], bookId);
      assert forall x :: x in rows <==> x == rows[0] || x in rows[1..];
      if rows[0].bookId == bookId then [rows[0]] + rest else rest
  }

  /** No row belongs to the book: the filter is empty. */
  lemma {:induction false} ForBookNone(rows: seq<Review>, bookId: int)
    requires forall i :: 0 <= i < |rows| ==> rows[i].bookId != bookId
    ensures ForBook(rows, bookId) == []
  {
    if rows != [] {
      ForBookNone(rows[1..], bookId);
    }
  }

  /** The reviews table's rows are in ascending id order when each row's key is its id. */
  lemma RowsAscending(table: map<int, Review>)
    ensures (forall id :: id in table ==> table[id].id == id) ==>
              forall i, j :: 0 <= i < j < |Rows(table)| ==> Rows(table)[i].id < Rows(table)[j].id
  {
    var ids := SortedIds(table.Keys);
    var rows := Rows(table);
    if forall id :: id in table ==> table[id].id == id {
      assert rows == RowsAt(table, ids);
      SortedIdsAscending(table.Keys);
      forall i, j | 0 <= i < j < |rows|
        ensures rows[i].id < rows[j].id
      {
        assert rows[i].id == ids[i] && rows[j].id == ids[j];
      }
    }
  }

  /** A scan holds exactly the stored rows. */
  lemma RowsHoldValues<T>(table: map<int, T>)
    ensures forall x :: x in Rows(table) <==> x in table.Values
  {
    var rows := Rows(table);
    forall x | x in table.Values
      ensures x in rows
    {
      var id :| id in table && table[id] == x;
    }
  }

  /**
   * The reviews of book `bookId`: a filtered query over the reviews table,
   * and what the book's `reviews` relationship loads.
   */
  function ReviewsOf(reviews: map<int, Review>, bookId: int): (r: seq<Review>)
    ensures forall x :: x in r <==> x in reviews.Values && x.bookId == bookId
    ensures (forall id :: id in reviews ==> reviews[id].id == id) ==>
              forall i, j :: 0 <= i < j < |r| ==> r[i].id < r[j].id
  {
    RowsHoldValues(reviews);
    RowsAscending(reviews);
    ForBook(Rows(reviews), bookId)
  }

  /** A book has no reviews exactly when no stored review carries its id. */
  lemma NoReviewsIff(reviews: map<int, Review>, bookId: int)
    ensures ReviewsOf(reviews, bookId) == [] <==> forall id :: id in reviews ==> reviews[id].bookId != bookId
  {
    var rows := Rows(reviews);
    if forall id :: id in reviews ==> reviews[id].bookId != bookId {
      forall i | 0 <= i < |rows|
        ensures rows[i].bookId != bookId
      {
        var id :| id in reviews && reviews[id] == rows[i];
      }
      ForBookNone(rows, bookId);
    } else {
      var id :| id in reviews && reviews[id].bookId == bookId;
      assert reviews[id] in ReviewsOf(reviews, bookId);
    }
  }

  /** The database session: both tables, committed atomically by each handler. */
  class Db {
    var books: map<int, Book>
    var reviews: map<int, Review>

    /**
     * Each row is stored under its own id, and every review's `book_id` names
     * a stored book (the foreign key, which is also declared not null).
     */
    ghost predicate Valid()
      reads this
    {
      && (forall id :: id in books ==> books[id].id == id)
      && (forall id :: id in reviews ==> reviews[id].id == id)
      && (forall id :: id in reviews ==> reviews[id].bookId in books)
    }

    constructor ()
      ensures Valid() && books == map[] && reviews == map[]
    {
      books := map[];
      reviews := map[];
    }
  }
}
