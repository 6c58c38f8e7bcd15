/** The records the school library keeps (books, people in two roles, rentals)
    and the pure queries the App runs over its insertion-ordered lists:
    first-match lookup by id, the rentals of one person, the role label and
    Ruby's `between?` range test. */
module Records {

  /** Ruby's `nil`-or-value, as returned by `find` and as taken by a
      teacher's specialization. */
  datatype Option<+T> = None | Some(value: T)

  datatype Book = Book(id: int, title: string, author: string)

  /** A person is a student or a teacher; only a teacher has a
      specialization, which may itself be missing (`nil`). */
  datatype Person =
    | Student(id: int, age: int, name: string)
    | Teacher(id: int, age: int, specialization: Option<string>, name: string)

  /** A rental holds the book and the person it was resolved to, not their ids. */
  datatype Rental = Rental(date: string, book: Book, person: Person)

  function PersonId(p: Person): int { p.id }

  function BookId(b: Book): int { b.id }

  /** Ruby's `Comparable#between?`: both bounds are inclusive. */
  predicate Between(x: int, lo: int, hi: int) { lo <= x && x <= hi }

  /** `build_person`: a Teacher with the given specialization when
      `isTeacher`, otherwise a Student, which drops the specialization. */
  function BuildPerson(isTeacher: bool, id: int, age: int, name: string, specialization: Option<string>): (p: Person)
    ensures p.Teacher? <==> isTeacher
    ensures p.id == id && p.age == age && p.name == name
    ensures p.Teacher? ==> p.specialization == specialization
  {
    if isTeacher then Teacher(id, age, specialization, name) else Student(id, age, name)
  }

  /** The role shown by `person_info`. */
  function RoleLabel(p: Person): (role: string)
    ensures role == "Teacher" <==> p.Teacher?
    ensures role == "Student" <==> p.Student?
  {
    if p.Teacher? then "Teacher" else "Student"
  }

  /** `find_by_id`: the first item, in list order, whose key is `id`, or
      None when no item has that key. Duplicate ids are allowed; the one
      at the smallest index wins. */
  function FindById<T>(items: seq<T>, id: int, key: T -> int): (r: Option<T>)
    ensures r.None? <==> forall i :: 0 <= i < |items| ==> key(items[i]) != id
    ensures r.Some? ==> exists i :: 0 <= i < |items| && items[i] == r.value && FirstWithKey(items, i, id, key)
  {
    if items == [] then None
    else if key(items[0]) == id then
      assert FirstWithKey(items, 0, id, key);
      Some(items[0])
    else
      var rest := FindById(items[1..], id, key);
      assert rest.Some? ==> exists i :: 0 <= i < |items| && items[i] == rest.value && FirstWithKey(items, i, id, key) by {
        if rest.Some? {
          var i :| 0 <= i < |items[1..]| && items[1..][i] == rest.value && FirstWithKey(items[1..], i, id, key);
          assert FirstWithKey(items, i + 1, id, key);
        }
      }
      rest
  }

  /** Index `i` holds key `id` and no earlier index does. */
  predicate FirstWithKey<T>(items: seq<T>, i: int, id: int, key: T -> int)
    requires 0 <= i < |items|
  {
    key(items[i]) == id && forall j :: 0 <= j < i ==> key(items[j]) != id
  }

  /** The `select` in `list_rentals_for_person`: the rentals of `p`, in the
      order they were made. */
  function RentalsOf(rentals: seq<Rental>, p: Person): (r: seq<Rental>)
    ensures forall x :: x in r <==> x in rentals && x.person == p
    ensures forall x :: multiset(r)[x] == if x.person == p then multiset(rentals)[x] else 0
  {
    if rentals == [] then []
    else
      assert rentals == [rentals[0]] + rentals[1..];
      if rentals[0].person == p then [rentals[0]] + RentalsOf(rentals[1..], p)
      else RentalsOf(rentals[1..], p)
  }

  /** `s` is `t` with some elements left out and the rest kept in order. */
  predicate IsSubsequence<T(==)>(s: seq<T>, t: seq<T>)
    decreases |t|
  {
    if s == [] then true
    else if t == [] then false
    else if s[0] == t[0] then IsSubsequence(s[1..], t[1..])
    else IsSubsequence(s, t[1..])
  }

  /** The independent description of "exactly the rentals of `p`, in their
      original order": an order-preserving sub-list of `rentals`, holding
      only rentals of `p` and every one of them as often as `rentals` does. */
  ghost predicate IsFilterOf(s: seq<Rental>, rentals: seq<Rental>, p: Person)
  {
    IsSubsequence(s, rentals)
    && (forall i :: 0 <= i < |s| ==> s[i].person == p)
    && (forall x: Rental :: x.person == p ==> multiset(s)[x] == multiset(rentals)[x])
  }

  lemma {:induction false} SubsequenceCounts<T>(s: seq<T>, t: seq<T>)
    requires IsSubsequence(s, t)
    ensures multiset(s) <= multiset(t)
    decreases |t|
  {
    if s == [] {
    } else {
      assert t == [t[0]] + t[1..];
      if s[0] == t[0] {
        assert s == [s[0]] + s[1..];
        SubsequenceCounts(s[1..], t[1..]);
      } else {
        SubsequenceCounts(s, t[1..]);
      }
    }
  }

  lemma {:induction false} RentalsOfIsSubsequence(rentals: seq<Rental>, p: Person)
    ensures IsSubsequence(RentalsOf(rentals, p), rentals)
  {
    if rentals != [] {
      RentalsOfIsSubsequence(rentals[1..], p);
      var r := RentalsOf(rentals, p);
      if rentals[0].person == p {
        assert r[0] == rentals[0] && r[1..] == RentalsOf(rentals[1..], p);
      } else if r != [] {
        assert r[0] in RentalsOf(rentals[1..], p);
        assert r[0].person == p;
      }
    }
  }

  /** The select yields exactly the rentals of `p`, in their original order. */
  lemma {:induction false} RentalsOfIsFilter(rentals: seq<Rental>, p: Person)
    ensures IsFilterOf(RentalsOf(rentals, p), rentals, p)
  {
    RentalsOfIsSubsequence(rentals, p);
    var r := RentalsOf(rentals, p);
    forall i | 0 <= i < |r| ensures r[i].person == p {
      assert r[i] in r;
    }
  }

  /** Only one list fits that description, so it pins the select down. */
  lemma {:induction false} FilterIsUnique(s: seq<Rental>, rentals: seq<Rental>, p: Person)
    requires IsFilterOf(s, rentals, p)
    ensures s == RentalsOf(rentals, p)
    decreases |rentals|
  {
    if rentals == [] {
    } else {
      var h := rentals[0];
      assert rentals == [h] + rentals[1..];
      if s != [] {
        assert s == [s[0]] + s[1..];
      }
      if h.person == p {
        assert multiset(s)[h] == multiset(rentals)[h] > 0;
        assert s != [];
        assert s[0] == h by {
          if s[0] != h {
            SubsequenceCounts(s, rentals[1..]);
          }
        }
        assert IsSubsequence(s[1..], rentals[1..]);
        forall x: Rental | x.person == p ensures multiset(s[1..])[x] == multiset(rentals[1..])[x] {
        }
        assert IsFilterOf(s[1..], rentals[1..], p);
        FilterIsUnique(s[1..], rentals[1..], p);
      } else {
        if s != [] {
          assert s[0].person == p;
          assert IsSubsequence(s, rentals[1..]);
        }
        forall x: Rental | x.person == p ensures multiset(s)[x] == multiset(rentals[1..])[x] {
        }
        assert IsFilterOf(s, rentals[1..], p);
        FilterIsUnique(s, rentals[1..], p);
      }
    }
  }

  /** Selecting over a list extended at the end extends the selection at the
      end: earlier rentals keep their places. */
  lemma {:induction false} RentalsOfAppend(a: seq<Rental>, b: seq<Rental>, p: Person)
    ensures RentalsOf(a + b, p) == RentalsOf(a, p) + RentalsOf(b, p)
  {
    if a == [] {
      assert a + b == b;
    } else {
      assert (a + b)[0] == a[0] && (a + b)[1..] == a[1..] + b;
      RentalsOfAppend(a[1..], b, p);
    }
  }

  /** A new rental shows up, at the end, in the selection for its own person
      and in no other person's selection. */
  lemma {:induction false} RentalsOfAfterRental(rentals: seq<Rental>, r: Rental, q: Person)
    ensures RentalsOf(rentals + [r], q) == RentalsOf(rentals, q) + if r.person == q then [r] else []
  {
    RentalsOfAppend(rentals, [r], q);
    assert [r][1..] == [];
  }
}
