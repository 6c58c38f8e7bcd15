# School library record keeper, modelled in Dafny

This project models the `App` class of a small school-library program.
`App` holds three insertion-ordered lists: people (students and teachers),
books and rentals. It only ever appends to them. After each successful
creation it asks that list's persistence store to save. It answers three
queries: first-match lookup by id, the range check on two 1-based menu
selections, and the rentals of one person.

- `records.dfy`, module `Records`: the records as datatypes (`Book`, `Person`
  with the variants `Student` and `Teacher`, `Rental`). It also holds the
  pure queries: `FindById`, the rental filter `RentalsOf`, `BuildPerson` and
  `RoleLabel`. The filter has an independent description, `IsFilterOf`: an
  order-preserving sub-list that keeps every rental of the person as often
  as the list does and nothing else. Lemmas prove that the filter meets the
  description and that only one list does.
- `app.dfy`, module `Library`: `App` as a class with three `seq` fields
  that its methods reassign. Three more fields, `storedPeople`,
  `storedBooks` and `storedRentals`, hold what each store last wrote.
  `RentalsResolved` (every rental refers to a person and a book the App
  holds) is kept by every operation. `Persisted` (the stores hold what
  memory holds) is set up by the constructor and kept by `CreatePerson`,
  `CreateBook` and `CreateRental`, but not by `AddPerson` or `AddBook`.
  Each save makes its own store match its own list. The queries
  `ValidNumbers` and `ListRentalsForPerson` are functions that read the object. Three client
  methods (`RentalScenario`, `MissingPersonScenario`, `ListBooksScenario`)
  show what a caller can conclude from the contracts alone.

Modelling choices:
- A rental holds the resolved `Person` and `Book` values, as the source
  holds the objects.
- The person match in `list_rentals_for_person` is datatype (structural)
  equality. The Ruby code compares with `==`. No override of it is part of
  this model, so Ruby falls back to object identity. The two agree as long
  as no two distinct person objects carry identical fields. That is likely
  not the case for rentals loaded at startup: rentals are loaded before
  people (app.rb:21-22), so a loaded rental's person is presumably a
  different object from the loaded person with the same fields. Under
  identity the source would then list none of those rentals for that
  person, while the model lists them.
- Ids and ages are unbounded `int`. Dates, names, titles and authors are
  strings. A teacher's specialization is `Option<string>`, with `None` for
  `nil`.
- The loaded collections are constructor parameters. Each `save_*` is
  modelled as overwriting that store's snapshot with the App's current
  list. The source passes no list to the save (app.rb:31, 41, 51): each
  manager saves its own list. The model assumes that list is the App's
  list, which holds because loading makes the App's field the manager's
  own array (app.rb:27, 37, 47), and the App only appends to it in place.
- The public `add_person` and `add_book` append without saving. So unlike
  the `create_*` operations, they can leave a store behind memory.
  `AddPerson` and `AddBook` say so: their contracts do not claim
  `Persisted` is kept.

## Model

| member | source | states |
|---|---|---|
| Records.BuildPerson | app.rb:137-139 | the person is a Teacher exactly when `is_teacher` is true, carries the given id, age and name, and a teacher carries the given (possibly missing) specialization |
| Records.RoleLabel | app.rb:154-157 | the label is "Teacher" exactly for the Teacher variant and "Student" exactly for the Student variant |
| Records.FindById | app.rb:129-131 | None exactly when no item has the id; otherwise the item at an index holding the id with no earlier index holding it, so with duplicate ids the first one wins |
| Records.RentalsOf | app.rb:120 | a rental is in the selection iff it is in the list and belongs to the person; each rental of the person occurs as often as in the list, and other rentals not at all |
| Records.RentalsOfIsSubsequence | app.rb:120 | the selection keeps the rentals' original relative order (it is a sub-list of the rentals) |
| Records.RentalsOfIsFilter | app.rb:117-125 | the selection meets the independent description of "exactly this person's rentals, in original order" |
| Records.FilterIsUnique | app.rb:120 | any list meeting that description equals the selection, so the description determines it completely |
| Records.SubsequenceCounts | app.rb:120 | a sub-list never holds a rental more often than the list it is taken from |
| Records.RentalsOfAppend | app.rb:120 | selecting over two lists joined end to end gives the two selections joined end to end |
| Records.RentalsOfAfterRental | app.rb:89-101 | after a rental is appended, that rental's person sees it once more at the end of their selection and every other person's selection is unchanged |
| Library.App.constructor | app.rb:13-23 | the three lists start as the loaded collections and the stores agree with memory |
| Library.App.SavePeopleData | app.rb:50-53 | the people store now holds the current people list; nothing else changes |
| Library.App.SaveBookData | app.rb:30-33 | the books store now holds the current books list; nothing else changes |
| Library.App.SaveRentalData | app.rb:40-43 | the rentals store now holds the current rentals list; nothing else changes |
| Library.App.AddPerson | app.rb:55-57 | people gains exactly the given person at the end; books, rentals and the stores are unchanged; rentals stay resolved |
| Library.App.AddBook | app.rb:59-61 | books gains exactly the given book at the end; people, rentals and the stores are unchanged; rentals stay resolved |
| Library.App.ListBooks | app.rb:63-65 | returns a value equal to the books list and changes nothing; the returned sequence is a separate value, so extending it cannot change the App's list |
| Library.App.CreatePerson | app.rb:75-80 | people gains exactly one person at the end, a Teacher with the given specialization when `is_teacher` and a Student otherwise; the people store is written; books and rentals are unchanged; both invariants are kept |
| Library.App.CreateBook | app.rb:82-87 | books gains exactly `Book(id, title, author)` at the end; the books store is written; people and rentals are unchanged; both invariants are kept |
| Library.App.CreateRental | app.rb:89-101 | succeeds iff both ids resolve by first match; on success rentals gains exactly one rental with the date and the two resolved records, and the rentals store is written; otherwise neither rentals nor its store change; people and books never change; both invariants are kept |
| Library.App.ValidNumbers | app.rb:111-115 | true iff both 1-based numbers select an element of their list (both bounds inclusive); always false when either list is empty |
| Library.App.ListRentalsForPerson | app.rb:117-125 | "not found" exactly when no person has the id; otherwise it reports the first person with the id, and either that person has no rental or the listing is a non-empty list that is exactly their rentals in original order |

## Left out

- Loading and saving inside the people, books and rentals managers, which is
  file I/O in files that are not part of this model. Loaded collections are
  constructor parameters, and a save is a snapshot of the list.
- `person_book_numbers`, which reads two numbers from standard input.
- Every `puts` message, and `print_items`, `list_all_books` and
  `list_all_people`, which are console output. `CreateRental`'s `created`
  result and the `RentalListing` variants tell which message would be
  printed. The numbered line `i` corresponds to element `i - 1`.
- The text built by `book_info` and `person_info`, which is display
  formatting. Only the role label is modelled (`RoleLabel`).
- The Ruby classes `Person`, `Teacher`, `Student`, `Book` and `Rental`,
  which are not part of this model. They are replaced by datatypes. Person
  equality is structural, not object identity.
- The `specialization: nil` keyword default of `create_person`. The caller
  passes `None` explicitly.
