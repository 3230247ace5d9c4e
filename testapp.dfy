/** The demo application: `Book` and `Person`, and
    `PersonQuerySet.with_book_of_the_year`, which annotates each person with
    the best rated book published in the year of their birth. */
module TestApp {
  import opened Wrappers
  import opened Orm
  import opened Subqueries

  /** A stored `Book` row; `rating` is nullable. */
  datatype Book = Book(id: int, title: string, rating: Option<int>, published: Date, hasCover: bool)

  /** A stored `Person` row. */
  datatype Person = Person(id: int, name: string, birth: Date)

  /** The declared fields of `Book`, the implicit primary key `id` included. */
  const BookFieldNames: set<FieldName> := {"id", "title", "rating", "published", "has_cover"}

  /** A model class whose declared fields are those of `Book`; the
      coercions its fields carry are left open. */
  predicate IsBookModel(m: ModelClass)
  {
    Names(m.fields) == BookFieldNames
  }

  /** The canonical record of a book, column by column. */
  function BookRecord(b: Book): (r: Record)
    ensures r.Keys == BookFieldNames
    ensures r["rating"] == (if b.rating.Some? then PyInt(b.rating.value) else PyNone)
    ensures r["has_cover"] == PyBool(b.hasCover)
  {
    map[
      "id" := PyInt(b.id),
      "title" := PyStr(b.title),
      "rating" := (match b.rating case Some(x) => PyInt(x) case None => PyNone),
      "published" := PyDate(b.published),
      "has_cover" := PyBool(b.hasCover)
    ]
  }

  /** The stored rows of `books`, in the same order. */
  function Records(books: seq<Book>): (r: seq<Record>)
    ensures |r| == |books| && forall i :: 0 <= i < |books| ==> r[i] == BookRecord(books[i])
  {
    seq(|books|, i requires 0 <= i < |books| => BookRecord(books[i]))
  }

  /** `Book.objects.filter(published__year=year)`: each book of that year as
      often as it is stored, and no other book. */
  function PublishedIn(books: seq<Book>, year: int): (r: seq<Book>)
    ensures forall b :: b in r <==> b in books && b.published.year == year
    ensures forall b :: multiset(r)[b] == if b.published.year == year then multiset(books)[b] else 0
    ensures |r| <= |books|
  {
    if books == [] then []
    else
      assert books == [books[0]] + books[1..];
      if books[0].published.year == year then [books[0]] + PublishedIn(books[1..], year)
      else PublishedIn(books[1..], year)
  }

  /** `a` may come before `b` under `order_by("-rating")` on sqlite, where
      NULL sorts below every number and so comes last in descending order. */
  predicate RatedAtLeast(a: Option<int>, b: Option<int>)
  {
    b.None? || (a.Some? && a.value >= b.value)
  }

  predicate SortedByRatingDesc(s: seq<Book>)
  {
    forall i, j :: 0 <= i < j < |s| ==> RatedAtLeast(s[i].rating, s[j].rating)
  }

  /** Places `b` before the first book it is rated at least as high as. */
  function InsertByRating(b: Book, s: seq<Book>): (r: seq<Book>)
    ensures multiset(r) == multiset(s) + multiset{b}
    ensures SortedByRatingDesc(s) ==> SortedByRatingDesc(r)
  {
    if s == [] || RatedAtLeast(b.rating, s[0].rating) then
      if SortedByRatingDesc(s) then
        PrependRatedAtLeast(b, s);
        [b] + s
      else
        [b] + s
    else
      var rest := InsertByRating(b, s[1..]);
      assert s == [s[0]] + s[1..];
      if SortedByRatingDesc(s) then
        HeadRatedAtLeastAll(s[0], s[1..], b, rest);
        [s[0]] + rest
      else
        [s[0]] + rest
  }

  /** A book rated at least as high as the first book of a rating-descending
      sequence may go in front of it. */
  lemma PrependRatedAtLeast(b: Book, s: seq<Book>)
    requires SortedByRatingDesc(s)
    requires s == [] || RatedAtLeast(b.rating, s[0].rating)
    ensures SortedByRatingDesc([b] + s)
  {
    var r := [b] + s;
    forall i, j | 0 <= i < j < |r| ensures RatedAtLeast(r[i].rating, r[j].rating) {
      if i == 0 {
        assert r[j] == s[j - 1];
        if j > 1 {
          assert RatedAtLeast(s[0].rating, s[j - 1].rating);
        }
      } else {
        assert r[i] == s[i - 1] && r[j] == s[j - 1];
      }
    }
  }

  /** A book rated at least as high as every book of `tail` and as `b` is
      rated at least as high as every book of a reordering of `tail + [b]`. */
  lemma HeadRatedAtLeastAll(head: Book, tail: seq<Book>, b: Book, rest: seq<Book>)
    requires SortedByRatingDesc([head] + tail)
    requires SortedByRatingDesc(rest)
    requires RatedAtLeast(head.rating, b.rating)
    requires multiset(rest) == multiset(tail) + multiset{b}
    ensures SortedByRatingDesc([head] + rest)
  {
    forall j | 0 <= j < |rest| ensures RatedAtLeast(head.rating, rest[j].rating) {
      assert rest[j] in multiset(rest);
      if rest[j] != b {
        assert rest[j] in multiset(tail);
        var k :| 0 <= k < |tail| && tail[k] == rest[j];
        var s := [head] + tail;
        assert s[0] == head && s[k + 1] == rest[j];
        assert RatedAtLeast(s[0].rating, s[k + 1].rating);
      }
    }
    var s := [head] + rest;
    forall i, j | 0 <= i < j < |s| ensures RatedAtLeast(s[i].rating, s[j].rating) {
      if i == 0 {
        assert s[j] == rest[j - 1];
      } else {
        assert s[i] == rest[i - 1] && s[j] == rest[j - 1];
      }
    }
  }

  /** `.order_by("-rating")`: highest rating first, NULL ratings last. SQL
      leaves the order of equal ratings open; this definition happens to keep
      them in their input order, and no contract relies on it. */
  function OrderByRatingDesc(s: seq<Book>): (r: seq<Book>)
    ensures multiset(r) == multiset(s)
    ensures SortedByRatingDesc(r)
  {
    if s == [] then []
    else
      assert s == [s[0]] + s[1..];
      InsertByRating(s[0], OrderByRatingDesc(s[1..]))
  }

  /** The candidate rows of the correlated subquery for one person:
      `Book.objects.filter(published__year=ExtractYear(OuterRef("birth"))).order_by("-rating")`. */
  function BookQuerySet(m: ModelClass, books: seq<Book>): (r: QuerySet<Person>)
    ensures r.model == m
    ensures forall p: Person :: CandidatesOfYear(books, p.birth.year, r.candidates(p))
  {
    var r := QuerySet(m, (p: Person) => Records(OrderByRatingDesc(PublishedIn(books, p.birth.year))));
    forall p: Person ensures CandidatesOfYear(books, p.birth.year, r.candidates(p)) {
      CandidateRows(books, p.birth.year);
    }
    r
  }

  /** `rows` are the stored rows of the books of `year`, each book as often as
      it is stored, in some order, and the first is the row of `BookOfTheYear`. */
  ghost predicate CandidatesOfYear(books: seq<Book>, year: int, rows: seq<Record>)
  {
    && multiset(rows) == multiset(Records(PublishedIn(books, year)))
    && (rows != [] ==> BookOfTheYear(books, year).Some? && rows[0] == BookRecord(BookOfTheYear(books, year).value))
  }

  /** The ordered candidate rows of one year are exactly the rows of its books. */
  lemma CandidateRows(books: seq<Book>, year: int)
    ensures CandidatesOfYear(books, year, Records(OrderByRatingDesc(PublishedIn(books, year))))
  {
    var found := PublishedIn(books, year);
    var ordered := OrderByRatingDesc(found);
    var rows := Records(ordered);
    assert multiset(rows) == multiset(Records(found)) by {
      RecordsOfOrder(found);
    }
    assert rows != [] ==> BookOfTheYear(books, year).Some? && rows[0] == BookRecord(BookOfTheYear(books, year).value) by {
      FirstRowIsBookOfTheYear(books, year);
    }
  }

  /** The rows of a sequence with one more book in front. */
  lemma RecordsCons(b: Book, s: seq<Book>)
    ensures Records([b] + s) == [BookRecord(b)] + Records(s)
  {
  }

  /** Inserting a book by rating adds exactly its row to the rows. */
  lemma {:induction false} RecordsOfInsert(b: Book, s: seq<Book>)
    ensures multiset(Records(InsertByRating(b, s))) == multiset(Records(s)) + multiset{BookRecord(b)}
  {
    if s == [] || RatedAtLeast(b.rating, s[0].rating) {
      RecordsCons(b, s);
    } else {
      assert s == [s[0]] + s[1..];
      RecordsOfInsert(b, s[1..]);
      RecordsCons(s[0], InsertByRating(b, s[1..]));
      RecordsCons(s[0], s[1..]);
    }
  }

  /** Ordering by rating only reorders the rows: the same rows, each as often. */
  lemma {:induction false} RecordsOfOrder(s: seq<Book>)
    ensures multiset(Records(OrderByRatingDesc(s))) == multiset(Records(s))
  {
    if s != [] {
      assert s == [s[0]] + s[1..];
      RecordsOfOrder(s[1..]);
      RecordsOfInsert(s[0], OrderByRatingDesc(s[1..]));
      RecordsCons(s[0], s[1..]);
    }
  }

  /** The first ordered candidate row is the row of `BookOfTheYear`. */
  lemma FirstRowIsBookOfTheYear(books: seq<Book>, year: int)
    ensures var rows := Records(OrderByRatingDesc(PublishedIn(books, year)));
      rows != [] ==> BookOfTheYear(books, year).Some? && rows[0] == BookRecord(BookOfTheYear(books, year).value)
  {
  }

  /** The book the subquery's first row comes from: the head of the ordered
      candidates, or `None` when no book was published in `year`. */
  function BookOfTheYear(books: seq<Book>, year: int): (r: Option<Book>)
    ensures r.None? <==> forall b :: b in books ==> b.published.year != year
    ensures r.Some? ==> r.value in books && r.value.published.year == year
    ensures r.Some? ==> forall b :: b in books && b.published.year == year ==> RatedAtLeast(r.value.rating, b.rating)
  {
    var ordered := OrderByRatingDesc(PublishedIn(books, year));
    if ordered == [] then
      assert forall b :: b in PublishedIn(books, year) ==> b in multiset(ordered);
      None
    else
      SortedHeadIsBest(ordered, PublishedIn(books, year));
      Some(ordered[0])
  }

  /** The first book of a rating-descending reordering of `candidates` is one
      of them and is rated at least as high as each of them. */
  lemma SortedHeadIsBest(ordered: seq<Book>, candidates: seq<Book>)
    requires ordered != []
    requires SortedByRatingDesc(ordered)
    requires multiset(ordered) == multiset(candidates)
    ensures ordered[0] in candidates
    ensures forall b :: b in candidates ==> RatedAtLeast(ordered[0].rating, b.rating)
  {
    assert ordered[0] in multiset(candidates);
    forall b | b in candidates ensures RatedAtLeast(ordered[0].rating, b.rating) {
      assert b in multiset(ordered);
      var j :| 0 <= j < |ordered| && ordered[j] == b;
      if j == 0 {
        assert RatedAtLeast(b.rating, b.rating);
      }
    }
  }

  /** `Person.objects.with_book_of_the_year(fields)` read row by row: each
      person with the book instance built by `ModelSubquery(all_books, fields)`. */
  function WithBookOfTheYear(m: ModelClass, books: seq<Book>, persons: seq<Person>, fields: Option<seq<FieldName>>, encode: PyValue -> Json): (r: Result<seq<(Person, Option<Instance>)>, Error>)
    ensures !ModelFields(m, fields).Ok? ==> r == Err(AssertionError)
    ensures r.Ok? ==> |r.value| == |persons| && forall i :: 0 <= i < |persons| ==> r.value[i].0 == persons[i]
  {
    var sq :- ModelSubquery(BookQuerySet(m, books), fields);
    Annotate(persons, sq, encode)
  }

  /** The annotation of one person: absent when no book was published in
      their birth year, otherwise the instance of the best rated such book
      with the selected fields loaded and the others deferred. */
  lemma PersonAnnotation(m: ModelClass, books: seq<Book>, fields: Option<seq<FieldName>>, encode: PyValue -> Json, p: Person)
    requires IsBookModel(m)
    requires ModelFields(m, fields).Ok?
    requires forall b :: b in books ==> Agrees(m, encode, BookRecord(b), ModelFields(m, fields).value)
    ensures var sq := ModelSubquery(BookQuerySet(m, books), fields).value;
      Resolve(sq, p, encode) == Ok(
        match BookOfTheYear(books, p.birth.year)
        case None => None
        case Some(b) => Some(Instance(m.name, LoadedAttrs(m, BookRecord(b), ModelFields(m, fields).value))))
  {
    var qs := BookQuerySet(m, books);
    var sq := ModelSubquery(qs, fields).value;
    var ordered := OrderByRatingDesc(PublishedIn(books, p.birth.year));
    assert qs.candidates(p) == Records(ordered);
    if ordered != [] {
      var b := ordered[0];
      assert b in multiset(PublishedIn(books, p.birth.year));
      DecodeProjectedRow(m, fields, BookRecord(b), encode);
    }
  }

  /** End to end: with a valid selection and coercions that read back what
      the database stores, every person is annotated with exactly the book
      `BookOfTheYear` picks, carrying that one book's values in the selected
      fields and deferring every other declared field. */
  lemma {:induction false} WithBookOfTheYearRoundTrip(m: ModelClass, books: seq<Book>, persons: seq<Person>, fields: Option<seq<FieldName>>, encode: PyValue -> Json)
    requires IsBookModel(m)
    requires ModelFields(m, fields).Ok?
    requires forall b :: b in books ==> Agrees(m, encode, BookRecord(b), ModelFields(m, fields).value)
    ensures var r := WithBookOfTheYear(m, books, persons, fields, encode);
      && r.Ok?
      && |r.value| == |persons|
      && forall i :: 0 <= i < |persons| ==>
           && r.value[i].0 == persons[i]
           && r.value[i].1 == match BookOfTheYear(books, persons[i].birth.year)
                              case None => None
                              case Some(b) => Some(Instance(m.name, LoadedAttrs(m, BookRecord(b), ModelFields(m, fields).value)))
  {
    var sq := ModelSubquery(BookQuerySet(m, books), fields).value;
    forall i | 0 <= i < |persons|
      ensures Resolve(sq, persons[i], encode) == Ok(
        match BookOfTheYear(books, persons[i].birth.year)
        case None => None
        case Some(b) => Some(Instance(m.name, LoadedAttrs(m, BookRecord(b), ModelFields(m, fields).value))))
    {
      PersonAnnotation(m, books, fields, encode, persons[i]);
    }
  }

  /** With `fields=["id"]` only the primary key is loaded: every other field
      of the annotated book is deferred. */
  lemma OnlyIdSelected(m: ModelClass, b: Book)
    requires IsBookModel(m)
    ensures ModelFields(m, Some(["id"])).Ok?
    ensures var attrs := LoadedAttrs(m, BookRecord(b), ModelFields(m, Some(["id"])).value);
      && attrs["id"] == Resolved(PyInt(b.id))
      && DeferredFields(Instance(m.name, attrs)) == {"title", "rating", "published", "has_cover"}
  {
  }

  /** Two books of the same year rated 10 and 1: the one rated 10 is chosen,
      whichever order they were stored in. */
  lemma BestOfTwoIsChosen(best: Book, worst: Book)
    requires best.rating == Some(10) && worst.rating == Some(1)
    requires best.published.year == 2000 && worst.published.year == 2000
    ensures BookOfTheYear([best, worst], 2000) == Some(best)
    ensures BookOfTheYear([worst, best], 2000) == Some(best)
  {
    BestRatedIsChosen(best, [best, worst], 2000);
    BestRatedIsChosen(best, [worst, best], 2000);
  }

  /** A book of the year rated strictly above every other book of that year
      is the one chosen. */
  lemma BestRatedIsChosen(best: Book, books: seq<Book>, year: int)
    requires best in books && best.published.year == year && best.rating.Some?
    requires forall b :: b in books && b.published.year == year && b != best ==>
      b.rating.None? || b.rating.value < best.rating.value
    ensures BookOfTheYear(books, year) == Some(best)
  {
    var r := BookOfTheYear(books, year);
    assert RatedAtLeast(r.value.rating, best.rating);
  }
}
