/**
 * The book service of src/service/BookService.js over an in-memory `book`
 * table (rows in storage order) and the copies recorded for each book.
 */
module BookService {
  import opened Envelope
  import opened Store
  import opened Digits

  type BookId = nat
  type CopyId = nat

  /** A stored book row; `id` is set by the store. */
  datatype Book = Book(id: BookId, isbn: string, title: string, publicationYear: int, publisher: string)

  /** The fields `createBook` copies from the request body. */
  datatype NewBook = NewBook(isbn: string, title: string, publicationYear: int, publisher: string)

  /** The fields `editBook` passes to the update; a missing one leaves the column alone. */
  datatype BookPatch = BookPatch(
    title: Option<string>,
    isbn: Option<string>,
    publicationYear: Option<int>,
    publisher: Option<string>)

  /** A book read with `include: { copies: true }`. */
  datatype BookWithCopies = BookWithCopies(book: Book, copies: seq<CopyId>)

  const InvalidId := "ID inválido."
  const BookNotExisting := "Livro não existente."
  const BookListed := "Listagem de livro bem-sucedida."
  const BooksListed := "Listagem de livros bem-sucedida."
  const NoBooks := "Nenhum livro encontrado."
  const IsbnTaken := "Esse ISBN já está cadastrado no sistema."
  const BookCreated := "Livro criado com sucesso."
  const NotFoundForDelete := "Livro não encontrado para deletar."
  const BookDeleted := "Livro deletado com sucesso."
  const NotFoundForUpdate := "Livro não encontrado para atualização."
  const BookUpdated := "Livro atualizado com sucesso."

  /** The number a string of decimal digits denotes. */
  function DecimalValue(s: string): nat
    requires AllDigits(s)
  {
    if s == [] then 0
    else
      var prefix := s[..|s| - 1];
      assert AllDigits(prefix) by {
        forall i | 0 <= i < |prefix| ensures IsDigit(prefix[i]) { assert prefix[i] == s[i]; }
      }
      DecimalValue(prefix) * 10 + DigitValue(s[|s| - 1])
  }

  /** `Number(id)` followed by the `isNaN` test, on identifiers written in decimal. */
  function ParseId(id: string): (r: Option<nat>)
    ensures r.Some? <==> id != "" && AllDigits(id)
  {
    if id != "" && AllDigits(id) then Some(DecimalValue(id)) else None
  }

  /** The decimal spelling of `n`, without leading zeros. */
  function ShowNat(n: nat): (s: string)
    ensures s != "" && AllDigits(s)
  {
    if n < 10 then [DigitChar(n)] else ShowNat(n / 10) + [DigitChar(n % 10)]
  }

  /** Every identifier the store hands out reads back as itself. */
  lemma {:induction false} ParseShowNat(n: nat)
    ensures ParseId(ShowNat(n)) == Some(n)
  {
    var s := ShowNat(n);
    if n < 10 {
      assert s[..|s| - 1] == [] && s[|s| - 1] == DigitChar(n);
      assert DecimalValue(s) == DecimalValue([]) * 10 + DigitValue(DigitChar(n));
    } else {
      ParseShowNat(n / 10);
      assert s[..|s| - 1] == ShowNat(n / 10) && s[|s| - 1] == DigitChar(n % 10);
    }
  }

  /** `findUnique({ where: { id } })`. */
  function IndexOfId(table: seq<Book>, id: BookId): (r: Option<nat>)
    ensures r.None? <==> forall i :: 0 <= i < |table| ==> table[i].id != id
    ensures r.Some? ==> r.value < |table| && table[r.value].id == id
  {
    FirstIndex(table, (b: Book) => b.id == id)
  }

  /** `findUnique({ where: { isbn } })`. */
  function IndexOfIsbn(table: seq<Book>, isbn: string): (r: Option<nat>)
    ensures r.None? <==> forall i :: 0 <= i < |table| ==> table[i].isbn != isbn
    ensures r.Some? ==> r.value < |table| && table[r.value].isbn == isbn
  {
    FirstIndex(table, (b: Book) => b.isbn == isbn)
  }

  /** No two books share an ISBN. */
  ghost predicate IsbnsDistinct(table: seq<Book>)
  {
    forall i, j :: 0 <= i < j < |table| ==> table[i].isbn != table[j].isbn
  }

  /** No two books share an identifier (the primary key). */
  ghost predicate IdsDistinct(table: seq<Book>)
  {
    forall i, j :: 0 <= i < j < |table| ==> table[i].id != table[j].id
  }

  /** Removing a book keeps the identifiers distinct. */
  lemma RemoveKeepsIdsDistinct(table: seq<Book>, k: nat)
    requires k < |table|
    ensures IdsDistinct(table) ==> IdsDistinct(RemoveAt(table, k))
  {
    var t := RemoveAt(table, k);
    if IdsDistinct(table) {
      forall i, j | 0 <= i < j < |t| ensures t[i].id != t[j].id {
        var i', j' := if i < k then i else i + 1, if j < k then j else j + 1;
        assert t[i] == table[i'] && t[j] == table[j'];
      }
    }
  }

  /** Once a book is removed from a table of distinct identifiers, no book has its identifier. */
  lemma RemovedIdIsGone(table: seq<Book>, k: nat)
    requires k < |table| && IdsDistinct(table)
    ensures IndexOfId(RemoveAt(table, k), table[k].id).None?
  {
    var t := RemoveAt(table, k);
    forall i | 0 <= i < |t| ensures t[i].id != table[k].id {
      if i < k { assert t[i] == table[i]; } else { assert t[i] == table[i + 1]; }
    }
  }

  lemma InsertKeepsIsbnsDistinct(table: seq<Book>, b: Book)
    requires forall i :: 0 <= i < |table| ==> table[i].isbn != b.isbn
    ensures IsbnsDistinct(table) ==> IsbnsDistinct(table + [b])
  {
    var t := table + [b];
    forall i | 0 <= i < |table| ensures t[i].isbn != b.isbn {
      assert t[i] == table[i];
    }
  }

  lemma RemoveKeepsIsbnsDistinct(table: seq<Book>, k: nat)
    requires k < |table|
    ensures IsbnsDistinct(table) ==> IsbnsDistinct(RemoveAt(table, k))
  {
    var t := RemoveAt(table, k);
    if IsbnsDistinct(table) {
      forall i, j | 0 <= i < j < |t| ensures t[i].isbn != t[j].isbn {
        var i', j' := if i < k then i else i + 1, if j < k then j else j + 1;
        assert t[i] == table[i'] && t[j] == table[j'];
      }
    }
  }

  /** The update of `editBook`: each present field is overwritten, absent ones keep their values. */
  function PatchBook(b: Book, data: BookPatch): (r: Book)
    ensures r.id == b.id
    ensures r.isbn == (if data.isbn.Some? then data.isbn.value else b.isbn)
    ensures r.title == (if data.title.Some? then data.title.value else b.title)
    ensures r.publicationYear == (if data.publicationYear.Some? then data.publicationYear.value else b.publicationYear)
    ensures r.publisher == (if data.publisher.Some? then data.publisher.value else b.publisher)
    ensures data == BookPatch(None, None, None, None) ==> r == b
  {
    Book(
      b.id,
      if data.isbn.Some? then data.isbn.value else b.isbn,
      if data.title.Some? then data.title.value else b.title,
      if data.publicationYear.Some? then data.publicationYear.value else b.publicationYear,
      if data.publisher.Some? then data.publisher.value else b.publisher)
  }

  /**
   * The edit path has no ISBN check: giving the first of two books the
   * second one's ISBN succeeds in the table and leaves two books with it.
   */
  lemma EditAdmitsDuplicateIsbn(a: Book, b: Book)
    requires a.isbn != b.isbn
    ensures IsbnsDistinct([a, b])
    ensures !IsbnsDistinct([a, b][0 := PatchBook(a, BookPatch(None, Some(b.isbn), None, None))])
  {
    var t := [a, b][0 := PatchBook(a, BookPatch(None, Some(b.isbn), None, None))];
    assert t[0].isbn == t[1].isbn;
  }

  class BookService {
    var books: seq<Book>
    var copies: map<BookId, seq<CopyId>>
    var nextId: BookId

    /**
     * Every stored identifier, and every book with copies, was handed out
     * before `nextId`, and no two books share an identifier.
     */
    ghost predicate Valid()
      reads this
    {
      && (forall i :: 0 <= i < |books| ==> books[i].id < nextId)
      && IdsDistinct(books)
      && (forall id :: id in copies ==> id < nextId)
    }

    constructor (books: seq<Book>, copies: map<BookId, seq<CopyId>>, nextId: BookId)
      requires forall i :: 0 <= i < |books| ==> books[i].id < nextId
      requires forall id :: id in copies ==> id < nextId
      requires IdsDistinct(books)
      ensures Valid()
      ensures this.books == books && this.copies == copies && this.nextId == nextId
    {
      this.books := books;
      this.copies := copies;
      this.nextId := nextId;
    }

    /** The copies recorded for book `id`. */
    function CopiesOf(id: BookId): seq<CopyId>
      reads this
    {
      if id in copies then copies[id] else []
    }

    /** Each book of `table` with its copies, in table order. */
    function WithCopies(table: seq<Book>): (r: seq<BookWithCopies>)
      reads this
      ensures |r| == |table|
      ensures forall i :: 0 <= i < |table| ==> r[i] == BookWithCopies(table[i], CopiesOf(table[i].id))
    {
      if table == [] then [] else [BookWithCopies(table[0], CopiesOf(table[0].id))] + WithCopies(table[1..])
    }

    /**
     * `listBook`: "ID inválido." for an identifier that is not a number,
     * before the table is consulted; an error when no book has that
     * identifier; otherwise that book with its copies.
     */
    function ListBook(id: string): (r: Response<BookWithCopies>)
      reads this
      ensures ParseId(id).None? ==> r == Error(InvalidId, [])
      ensures ParseId(id).Some? && (forall i :: 0 <= i < |books| ==> books[i].id != ParseId(id).value) ==>
        r == Error(BookNotExisting, [])
      ensures r.Success? <==> ParseId(id).Some? && exists i :: 0 <= i < |books| && books[i].id == ParseId(id).value
      ensures r.Success? ==>
        && r.message == BookListed
        && r.data.book in books
        && r.data.book.id == ParseId(id).value
        && r.data.copies == CopiesOf(r.data.book.id)
    {
      match ParseId(id)
      case None => Error(InvalidId, [])
      case Some(n) =>
        match IndexOfId(books, n)
        case None => Error(BookNotExisting, [])
        case Some(k) => Success(BookListed, BookWithCopies(books[k], CopiesOf(books[k].id)))
    }

    /** `listAllBooks`: an error on an empty table, otherwise every book with its copies, in table order. */
    function ListAllBooks(): (r: Response<seq<BookWithCopies>>)
      reads this
      ensures r.Error? <==> |books| == 0
      ensures r.Error? ==> r == Error(NoBooks, [])
      ensures r.Success? ==> r.message == BooksListed && |r.data| == |books|
      ensures r.Success? ==> forall i :: 0 <= i < |books| ==> r.data[i] == BookWithCopies(books[i], CopiesOf(books[i].id))
    {
      if |books| == 0 then Error(NoBooks, []) else Success(BooksListed, WithCopies(books))
    }

    /**
     * `createBook`: refused, with the table unchanged, when a book already
     * has the ISBN; otherwise exactly one book is added, with a fresh
     * identifier and the given isbn, title, year and publisher, so distinct
     * ISBNs stay distinct.
     */
    method CreateBook(data: NewBook) returns (r: Response<Book>)
      requires Valid()
      modifies this
      ensures Valid() && copies == old(copies)
      ensures r.Error? ==> books == old(books) && nextId == old(nextId)
      ensures r.Error? <==> exists i :: 0 <= i < |old(books)| && old(books)[i].isbn == data.isbn
      ensures r.Error? ==> r == Error(IsbnTaken, [])
      ensures r.Success? ==>
        && r == Success(BookCreated, Book(old(nextId), data.isbn, data.title, data.publicationYear, data.publisher))
        && books == old(books) + [r.data]
        && nextId == old(nextId) + 1
      ensures r.Success? ==> forall i :: 0 <= i < |old(books)| ==> old(books)[i].id != r.data.id
      ensures r.Success? ==> CopiesOf(r.data.id) == []
      ensures IsbnsDistinct(old(books)) ==> IsbnsDistinct(books)
    {
      var existing := IndexOfIsbn(books, data.isbn);
      if existing.Some? {
        return Error(IsbnTaken, []);
      }
      var created := Book(nextId, data.isbn, data.title, data.publicationYear, data.publisher);
      InsertKeepsIsbnsDistinct(books, created);
      books := books + [created];
      nextId := nextId + 1;
      r := Success(BookCreated, created);
    }

    /**
     * `deleteBook`: "ID inválido." for a non-numeric identifier, an error
     * when no book has it, otherwise exactly that book is removed. Copies
     * are not consulted.
     */
    method DeleteBook(id: string) returns (r: Response<()>)
      requires Valid()
      modifies this
      ensures Valid() && copies == old(copies) && nextId == old(nextId)
      ensures r.Error? ==> books == old(books)
      ensures ParseId(id).None? ==> r == Error(InvalidId, [])
      ensures ParseId(id).Some? && IndexOfId(old(books), ParseId(id).value).None? ==> r == Error(NotFoundForDelete, [])
      ensures r.Success? <==> ParseId(id).Some? && IndexOfId(old(books), ParseId(id).value).Some?
      ensures r.Success? ==>
        && r == Success(BookDeleted, ())
        && books == RemoveAt(old(books), IndexOfId(old(books), ParseId(id).value).value)
        && IndexOfId(books, ParseId(id).value).None?
      ensures IsbnsDistinct(old(books)) ==> IsbnsDistinct(books)
    {
      var n := ParseId(id);
      if n.None? {
        return Error(InvalidId, []);
      }
      var found := IndexOfId(books, n.value);
      if found.None? {
        return Error(NotFoundForDelete, []);
      }
      RemoveKeepsIsbnsDistinct(books, found.value);
      RemoveKeepsIdsDistinct(books, found.value);
      RemovedIdIsGone(books, found.value);
      books := RemoveAt(books, found.value);
      r := Success(BookDeleted, ());
    }

    /**
     * `editBook`: "ID inválido." for a non-numeric identifier, an error
     * when no book has it, otherwise title, isbn, year and publisher are
     * overwritten on that book alone (absent fields keep their values).
     * No ISBN check is made.
     */
    method EditBook(id: string, data: BookPatch) returns (r: Response<Book>)
      requires Valid()
      modifies this
      ensures Valid() && copies == old(copies) && nextId == old(nextId)
      ensures r.Error? ==> books == old(books)
      ensures ParseId(id).None? ==> r == Error(InvalidId, [])
      ensures ParseId(id).Some? && IndexOfId(old(books), ParseId(id).value).None? ==> r == Error(NotFoundForUpdate, [])
      ensures r.Success? <==> ParseId(id).Some? && IndexOfId(old(books), ParseId(id).value).Some?
      ensures r.Success? ==>
        var k := IndexOfId(old(books), ParseId(id).value).value;
        && r == Success(BookUpdated, PatchBook(old(books)[k], data))
        && books == old(books)[k := r.data]
    {
      var n := ParseId(id);
      if n.None? {
        return Error(InvalidId, []);
      }
      var found := IndexOfId(books, n.value);
      if found.None? {
        return Error(NotFoundForUpdate, []);
      }
      var k := found.value;
      var updated := PatchBook(books[k], data);
      books := books[k := updated];
      r := Success(BookUpdated, updated);
    }
  }
}
