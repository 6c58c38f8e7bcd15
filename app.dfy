/** The App record keeper: three insertion-ordered lists (people, books,
    rentals) that it only ever appends to, the persistence stores that write
    each list out after a successful creation, and its queries. */
module Library {
  import opened Records

  /** What `list_rentals_for_person` reports: the person id matched nobody
      ("Person not found."), the person has no rentals ("No rentals for
      <name>."), or the numbered list of that person's rentals. */
  datatype RentalListing =
    | PersonNotFound
    | NoRentals(person: Person)
    | RentalsFor(person: Person, rentals: seq<Rental>)

  class App {
    var people: seq<Person>
    var books: seq<Book>
    var rentals: seq<Rental>

    /** What each store last wrote. A save takes no argument: each manager
        writes its own list, which loading made the very list the App
        appends to, so a save writes the App's current list. */
    var storedPeople: seq<Person>
    var storedBooks: seq<Book>
    var storedRentals: seq<Rental>

    /** Every rental refers to a person and a book the App holds. */
    ghost predicate RentalsResolved()
      reads this
    {
      forall r :: r in rentals ==> r.person in people && r.book in books
    }

    /** The stores hold exactly what the App holds in memory. */
    ghost predicate Persisted()
      reads this
    {
      storedPeople == people && storedBooks == books && storedRentals == rentals
    }

    /** `initialize`: start from the collections the three stores load. */
    constructor (loadedPeople: seq<Person>, loadedBooks: seq<Book>, loadedRentals: seq<Rental>)
      ensures people == loadedPeople && books == loadedBooks && rentals == loadedRentals
      ensures Persisted()
    {
      people, books, rentals := loadedPeople, loadedBooks, loadedRentals;
      storedPeople, storedBooks, storedRentals := loadedPeople, loadedBooks, loadedRentals;
    }

    method SavePeopleData()
      modifies this`storedPeople
      ensures storedPeople == people
    {
      storedPeople := people;
    }

    method SaveBookData()
      modifies this`storedBooks
      ensures storedBooks == books
    {
      storedBooks := books;
    }

    method SaveRentalData()
      modifies this`storedRentals
      ensures storedRentals == rentals
    {
      storedRentals := rentals;
    }

    /** `add_person`: append without saving. */
    method AddPerson(p: Person)
      modifies this`people
      ensures people == old(people) + [p]
      ensures old(RentalsResolved()) ==> RentalsResolved()
    {
      people := people + [p];
    }

    /** `add_book`: append without saving. */
    method AddBook(b: Book)
      modifies this`books
      ensures books == old(books) + [b]
      ensures old(RentalsResolved()) ==> RentalsResolved()
    {
      books := books + [b];
    }

    /** `list_books`: a copy of the books list; the caller may extend the
        copy without touching the App's list. */
    method ListBooks() returns (copy: seq<Book>)
      ensures copy == books
    {
      copy := books;
    }

    /** `create_person`: append one Teacher or Student and save the people. */
    method CreatePerson(isTeacher: bool, id: int, age: int, name: string, specialization: Option<string>)
      modifies this`people, this`storedPeople
      ensures people == old(people) + [BuildPerson(isTeacher, id, age, name, specialization)]
      ensures storedPeople == people
      ensures old(RentalsResolved()) ==> RentalsResolved()
      ensures old(Persisted()) ==> Persisted()
    {
      var person := BuildPerson(isTeacher, id, age, name, specialization);
      AddPerson(person);
      SavePeopleData();
    }

    /** `create_book`: append one Book and save the books. */
    method CreateBook(id: int, title: string, author: string)
      modifies this`books, this`storedBooks
      ensures books == old(books) + [Book(id, title, author)]
      ensures storedBooks == books
      ensures old(RentalsResolved()) ==> RentalsResolved()
      ensures old(Persisted()) ==> Persisted()
    {
      var book := Book(id, title, author);
      AddBook(book);
      SaveBookData();
    }

    /** `create_rental`: when both ids resolve (first match), append one
        rental of that book by that person and save the rentals; otherwise
        change nothing and save nothing. `created` tells which notice is
        printed. */
    method CreateRental(personId: int, bookId: int, date: string) returns (created: bool)
      modifies this`rentals, this`storedRentals
      ensures var p, b := FindById(people, personId, PersonId), FindById(books, bookId, BookId);
        && (created <==> p.Some? && b.Some?)
        && (created ==> rentals == old(rentals) + [Rental(date, b.value, p.value)] && storedRentals == rentals)
      ensures !created ==> rentals == old(rentals) && storedRentals == old(storedRentals)
      ensures old(RentalsResolved()) ==> RentalsResolved()
      ensures old(Persisted()) ==> Persisted()
    {
      var person := FindById(people, personId, PersonId);
      var book := FindById(books, bookId, BookId);
      if person.Some? && book.Some? {
        var rental := Rental(date, book.value, person.value);
        rentals := rentals + [rental];
        SaveRentalData();
        created := true;
      } else {
        created := false;
      }
    }

    /** `valid_numbers?`: both 1-based selections pick an element of their
        list. */
    function ValidNumbers(personNumber: int, bookNumber: int): (ok: bool)
      reads this
      ensures ok <==> (0 <= personNumber - 1 < |people| && 0 <= bookNumber - 1 < |books|)
      ensures people == [] || books == [] ==> !ok
    {
      Between(personNumber, 1, |people|) && Between(bookNumber, 1, |books|)
    }

    /** `list_rentals_for_person` with `display_person_rentals`: resolve the
        id to the first person with it, then select that person's rentals. */
    function ListRentalsForPerson(personId: int): (listing: RentalListing)
      reads this
      ensures listing.PersonNotFound? <==> forall i :: 0 <= i < |people| ==> people[i].id != personId
      ensures !listing.PersonNotFound? ==> Some(listing.person) == FindById(people, personId, PersonId)
      ensures listing.NoRentals? ==> forall r :: r in rentals ==> r.person != listing.person
      ensures listing.RentalsFor? ==> listing.rentals != [] && IsFilterOf(listing.rentals, rentals, listing.person)
    {
      match FindById(people, personId, PersonId)
      case None => PersonNotFound
      case Some(person) =>
        var selected := RentalsOf(rentals, person);
        RentalsOfIsFilter(rentals, person);
        if selected == [] then NoRentals(person) else RentalsFor(person, selected)
    }
  }

  /** A student and a book, then a rental of that book by that student:
      exactly one rental, carrying the date and both resolved records. */
  method RentalScenario() {
    var app := new App([], [], []);
    app.CreatePerson(false, 1, 20, "Alice", None);
    app.CreateBook(1, "Dune", "Herbert");
    var created := app.CreateRental(1, 1, "2024-01-01");
    assert created;
    assert |app.rentals| == 1;
    assert app.rentals[0].date == "2024-01-01";
    assert app.rentals[0].book.title == "Dune";
    assert app.rentals[0].person.name == "Alice";
    assert app.Persisted();
    RentalsOfAfterRental([], app.rentals[0], app.rentals[0].person);
    assert app.ListRentalsForPerson(1) == RentalsFor(app.rentals[0].person, app.rentals);
  }

  /** A rental for a person id nobody has: nothing is appended and the
      rentals store is not written. */
  method MissingPersonScenario() {
    var app := new App([], [], []);
    app.CreateBook(1, "Dune", "Herbert");
    var created := app.CreateRental(99, 1, "2024-01-01");
    assert !created;
    assert app.rentals == [] && app.storedRentals == [];
    assert !app.ValidNumbers(1, 1);
    assert app.ListRentalsForPerson(99) == PersonNotFound;
  }

  /** Extending the list returned by `list_books` leaves the App's books as
      they were. */
  method ListBooksScenario() {
    var app := new App([], [Book(1, "Dune", "Herbert")], []);
    var copy := app.ListBooks();
    copy := copy + [Book(2, "Emma", "Austen")];
    assert |copy| == 2;
    assert app.books == [Book(1, "Dune", "Herbert")];
  }
}
