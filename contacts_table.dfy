/** The client-side logic of the contacts table: the search and status
    filter, the sort by a chosen column and direction, and the selection
    and sort-header state that the table's handlers update. */
module ContactsTable {
  import opened Text
  import opened Models

  // ---------------------------------------------------------------------
  // Filtering
  // ---------------------------------------------------------------------

  /** Case-insensitive substring search over first name, last name, email
      and company name. */
  predicate MatchesSearch(c: Contact, query: string): (b: bool)
    ensures query == "" ==> b
  {
    assert Lower("") == "";
    assert OccursAt(Lower(c.firstName), "", 0);
    var q := Lower(query);
    Contains(Lower(c.firstName), q) || Contains(Lower(c.lastName), q)
    || Contains(Lower(c.email), q) || Contains(Lower(c.company.name), q)
  }

  /** The status filter: "all" keeps everything, any other value only an
      exactly equal status. */
  predicate MatchesStatus(c: Contact, statusFilter: string)
  {
    statusFilter == "all" || c.status == statusFilter
  }

  predicate Shown(c: Contact, query: string, statusFilter: string)
  {
    MatchesSearch(c, query) && MatchesStatus(c, statusFilter)
  }

  /** `contacts.filter(...)`: the contacts passing both tests, in order. */
  function Filter(contacts: seq<Contact>, query: string, statusFilter: string): (r: seq<Contact>)
    ensures |r| <= |contacts|
    ensures query == "" && statusFilter == "all" ==> r == contacts
  {
    if contacts == [] then []
    else
      var before := Filter(contacts[..|contacts| - 1], query, statusFilter);
      var c := contacts[|contacts| - 1];
      assert contacts == contacts[..|contacts| - 1] + [c];
      if Shown(c, query, statusFilter) then before + [c] else before
  }

  /** The filtered list holds each passing contact exactly as often as the
      input does, and nothing else. */
  lemma {:induction false} FilterCounts(contacts: seq<Contact>, query: string, statusFilter: string)
    ensures forall c :: multiset(Filter(contacts, query, statusFilter))[c]
                        == if Shown(c, query, statusFilter) then multiset(contacts)[c] else 0
  {
    if contacts != [] {
      var init := contacts[..|contacts| - 1];
      FilterCounts(init, query, statusFilter);
      assert contacts == init + [contacts[|contacts| - 1]];
    }
  }

  /** A contact is listed exactly when it is in the input and passes both the
      search and the status test. */
  lemma FilterMembers(contacts: seq<Contact>, query: string, statusFilter: string, c: Contact)
    ensures c in Filter(contacts, query, statusFilter) <==> c in contacts && Shown(c, query, statusFilter)
  {
    FilterCounts(contacts, query, statusFilter);
    assert c in Filter(contacts, query, statusFilter) <==> multiset(Filter(contacts, query, statusFilter))[c] > 0;
    assert c in contacts <==> multiset(contacts)[c] > 0;
  }

  // ---------------------------------------------------------------------
  // Sorting
  // ---------------------------------------------------------------------

  /** The columns whose headers sort the table. */
  datatype SortField = FirstName | CompanyColumn | Status | CreatedAt

  datatype Direction = Asc | Desc

  /** The text key of a contact for a non-date column:
      `a[sortField]?.toString().toLowerCase() || ""`. The company is an
      object, whose string form is "[object Object]" for every contact. */
  function TextKey(c: Contact, field: SortField): string
    requires field != CreatedAt
  {
    match field
    case FirstName => Lower(c.firstName)
    case Status => Lower(c.status)
    case CompanyColumn => Lower("[object Object]")
  }

  /** Lexicographic order on characters, standing in for `localeCompare`:
      negative, zero or positive. */
  function LexCompare(x: string, y: string): (r: int)
    ensures -1 <= r <= 1
    ensures r == 0 <==> x == y
  {
    if x == [] && y == [] then 0
    else if x == [] then -1
    else if y == [] then 1
    else if x[0] < y[0] then -1
    else if x[0] > y[0] then 1
    else LexCompare(x[1..], y[1..])
  }

  lemma {:induction false} LexCompareAntisymmetric(x: string, y: string)
    ensures LexCompare(x, y) == -LexCompare(y, x)
  {
    if x != [] && y != [] && x[0] == y[0] {
      LexCompareAntisymmetric(x[1..], y[1..]);
    }
  }

  lemma {:induction false} LexCompareTransitive(x: string, y: string, z: string)
    requires LexCompare(x, y) <= 0 && LexCompare(y, z) <= 0
    ensures LexCompare(x, z) <= 0
  {
    if x != [] && y != [] && z != [] && x[0] == y[0] == z[0] {
      LexCompareTransitive(x[1..], y[1..], z[1..]);
    }
  }

  /** The sort comparator: the time difference for the date column, the
      string comparison of the keys otherwise; "desc" swaps the operands. */
  function Compare(a: Contact, b: Contact, field: SortField, dir: Direction): (r: int)
    ensures field == CreatedAt ==> (r == 0 <==> a.createdAt == b.createdAt)
    ensures field != CreatedAt ==> (r == 0 <==> TextKey(a, field) == TextKey(b, field))
    ensures field == CreatedAt && dir == Asc ==> (r < 0 <==> a.createdAt < b.createdAt)
    ensures field == CreatedAt && dir == Desc ==> (r < 0 <==> a.createdAt > b.createdAt)
  {
    if field == CreatedAt then
      (if dir == Asc then a.createdAt - b.createdAt else b.createdAt - a.createdAt)
    else
      (if dir == Asc then LexCompare(TextKey(a, field), TextKey(b, field))
       else LexCompare(TextKey(b, field), TextKey(a, field)))
  }

  /** The comparator is a total preorder: swapping operands negates it, and
      "not after" is transitive. */
  lemma CompareOrder(a: Contact, b: Contact, c: Contact, field: SortField, dir: Direction)
    ensures Compare(a, b, field, dir) == -Compare(b, a, field, dir)
    ensures Compare(a, b, field, dir) <= 0 && Compare(b, c, field, dir) <= 0 ==> Compare(a, c, field, dir) <= 0
  {
    if field != CreatedAt {
      var ka, kb, kc := TextKey(a, field), TextKey(b, field), TextKey(c, field);
      LexCompareAntisymmetric(ka, kb);
      if Compare(a, b, field, dir) <= 0 && Compare(b, c, field, dir) <= 0 {
        if dir == Asc { LexCompareTransitive(ka, kb, kc); } else { LexCompareTransitive(kc, kb, ka); }
      }
    }
  }

  predicate Sorted(s: seq<Contact>, field: SortField, dir: Direction)
  {
    forall i, j :: 0 <= i < j < |s| ==> Compare(s[i], s[j], field, dir) <= 0
  }

  /** Insert `x` after every element that does not compare above it. */
  function Insert(x: Contact, s: seq<Contact>, field: SortField, dir: Direction): seq<Contact>
  {
    if s == [] then [x]
    else if Compare(x, s[0], field, dir) < 0 then [x] + s
    else [s[0]] + Insert(x, s[1..], field, dir)
  }

  /** The stable sort that `Array.prototype.sort` performs with the
      comparator: equal elements keep their input order, and the result is a
      permutation of the input. */
  function SortContacts(s: seq<Contact>, field: SortField, dir: Direction): (r: seq<Contact>)
    ensures multiset(r) == multiset(s)
  {
    if s == [] then []
    else
      var init, x := s[..|s| - 1], s[|s| - 1];
      InsertPermutes(x, SortContacts(init, field, dir), field, dir);
      assert s == init + [x];
      Insert(x, SortContacts(init, field, dir), field, dir)
  }

  /** `y` compares at or below every element of `s`. */
  predicate Below(y: Contact, s: seq<Contact>, field: SortField, dir: Direction)
  {
    forall k :: 0 <= k < |s| ==> Compare(y, s[k], field, dir) <= 0
  }

  lemma {:induction false} InsertKeepsBelow(y: Contact, x: Contact, s: seq<Contact>, field: SortField, dir: Direction)
    requires Below(y, s, field, dir) && Compare(y, x, field, dir) <= 0
    ensures Below(y, Insert(x, s, field, dir), field, dir)
  {
    if s != [] && Compare(x, s[0], field, dir) >= 0 {
      InsertKeepsBelow(y, x, s[1..], field, dir);
    }
  }

  lemma {:induction false} InsertPermutes(x: Contact, s: seq<Contact>, field: SortField, dir: Direction)
    ensures multiset(Insert(x, s, field, dir)) == multiset(s) + multiset{x}
  {
    if s != [] && Compare(x, s[0], field, dir) >= 0 {
      InsertPermutes(x, s[1..], field, dir);
      assert s == [s[0]] + s[1..];
    }
  }

  /** An element at or below a sorted list can be put in front of it. */
  lemma ConsSorted(y: Contact, t: seq<Contact>, field: SortField, dir: Direction)
    requires Below(y, t, field, dir) && Sorted(t, field, dir)
    ensures Sorted([y] + t, field, dir)
  {
    var r := [y] + t;
    forall i, j | 0 <= i < j < |r| ensures Compare(r[i], r[j], field, dir) <= 0 {
      if i == 0 {
        assert r[j] == t[j - 1];
      } else {
        assert r[i] == t[i - 1] && r[j] == t[j - 1];
      }
    }
  }

  lemma {:induction false} InsertSorted(x: Contact, s: seq<Contact>, field: SortField, dir: Direction)
    requires Sorted(s, field, dir)
    ensures Sorted(Insert(x, s, field, dir), field, dir)
  {
    if s == [] {
    } else if Compare(x, s[0], field, dir) < 0 {
      assert Below(x, s, field, dir) by {
        forall k | 0 <= k < |s| ensures Compare(x, s[k], field, dir) <= 0 {
          if k > 0 { CompareOrder(x, s[0], s[k], field, dir); }
        }
      }
      ConsSorted(x, s, field, dir);
    } else {
      var t := s[1..];
      assert Sorted(t, field, dir) by {
        forall i, j | 0 <= i < j < |t| ensures Compare(t[i], t[j], field, dir) <= 0 {
          assert t[i] == s[i + 1] && t[j] == s[j + 1];
        }
      }
      InsertSorted(x, t, field, dir);
      CompareOrder(x, s[0], s[0], field, dir);
      assert Below(s[0], t, field, dir) by {
        forall k | 0 <= k < |t| ensures Compare(s[0], t[k], field, dir) <= 0 {
          assert t[k] == s[k + 1];
        }
      }
      InsertKeepsBelow(s[0], x, t, field, dir);
      ConsSorted(s[0], Insert(x, t, field, dir), field, dir);
    }
  }

  /** The sort orders its result by the comparator. */
  lemma {:induction false} SortSorted(s: seq<Contact>, field: SortField, dir: Direction)
    ensures Sorted(SortContacts(s, field, dir), field, dir)
  {
    if s != [] {
      var init := s[..|s| - 1];
      SortSorted(init, field, dir);
      InsertSorted(s[|s| - 1], SortContacts(init, field, dir), field, dir);
    }
  }

  /** Inserting an element that nothing compares above appends it. */
  lemma {:induction false} InsertAtEnd(x: Contact, s: seq<Contact>, field: SortField, dir: Direction)
    requires forall k :: 0 <= k < |s| ==> Compare(x, s[k], field, dir) >= 0
    ensures Insert(x, s, field, dir) == s + [x]
  {
    if s != [] {
      InsertAtEnd(x, s[1..], field, dir);
      assert s == [s[0]] + s[1..];
    }
  }

  /** Every contact has the same company key. */
  lemma CompanyCompareZero(a: Contact, b: Contact, dir: Direction)
    ensures Compare(a, b, CompanyColumn, dir) == 0
  {
    assert TextKey(a, CompanyColumn) == TextKey(b, CompanyColumn);
  }

  /** Sorting on the company column keeps the filtered order, because every
      contact has the same key. */
  lemma {:induction false} CompanySortKeepsOrder(s: seq<Contact>, dir: Direction)
    ensures SortContacts(s, CompanyColumn, dir) == s
  {
    if s != [] {
      var init := s[..|s| - 1];
      var x := s[|s| - 1];
      CompanySortKeepsOrder(init, dir);
      forall k | 0 <= k < |init| ensures Compare(x, init[k], CompanyColumn, dir) >= 0 {
        CompanyCompareZero(x, init[k], dir);
      }
      InsertAtEnd(x, init, CompanyColumn, dir);
      assert s == init + [x];
    }
  }

  // ---------------------------------------------------------------------
  // The visible list
  // ---------------------------------------------------------------------

  /** `filteredAndSortedContacts`: a permutation of the filtered input, so
      every input contact that passes both tests appears as often as in the
      input, and no other contact appears. */
  function VisibleContacts(contacts: seq<Contact>, query: string, statusFilter: string,
                           field: SortField, dir: Direction): (r: seq<Contact>)
    ensures forall c :: multiset(r)[c] == if Shown(c, query, statusFilter) then multiset(contacts)[c] else 0
  {
    FilterCounts(contacts, query, statusFilter);
    SortContacts(Filter(contacts, query, statusFilter), field, dir)
  }

  /** The visible list is ordered by the comparator. */
  lemma VisibleContactsSorted(contacts: seq<Contact>, query: string, statusFilter: string,
                               field: SortField, dir: Direction)
    ensures var v := VisibleContacts(contacts, query, statusFilter, field, dir);
      Sorted(v, field, dir)
  {
    SortSorted(Filter(contacts, query, statusFilter), field, dir);
  }

  /** Sorting on the date column orders timestamps: non-decreasing for
      "asc", non-increasing for "desc". */
  lemma DateSortOrdersTimestamps(contacts: seq<Contact>, query: string, statusFilter: string,
                                 dir: Direction, i: int, j: int)
    requires 0 <= i < j < |VisibleContacts(contacts, query, statusFilter, CreatedAt, dir)|
    ensures var v := VisibleContacts(contacts, query, statusFilter, CreatedAt, dir);
      if dir == Asc then v[i].createdAt <= v[j].createdAt else v[i].createdAt >= v[j].createdAt
  {
    SortSorted(Filter(contacts, query, statusFilter), CreatedAt, dir);
  }

  // ---------------------------------------------------------------------
  // Selection and sort-header state
  // ---------------------------------------------------------------------

  /** `handleSelectContact` on a set: flip membership of one id. */
  function Toggle(selected: set<string>, id: string): (r: set<string>)
    ensures id in r <==> id !in selected
    ensures forall x :: x != id ==> (x in r <==> x in selected)
  {
    if id in selected then selected - {id} else selected + {id}
  }

  /** Toggling the same id twice restores the selection. */
  lemma ToggleTwice(selected: set<string>, id: string)
    ensures Toggle(Toggle(selected, id), id) == selected
  {
  }

  function Ids(contacts: seq<Contact>): (r: set<string>)
    ensures forall x :: x in r <==> exists k :: 0 <= k < |contacts| && contacts[k].id == x
  {
    set k | 0 <= k < |contacts| :: contacts[k].id
  }

  /** `handleSelectAll`: clear when the selection has as many ids as there
      are visible rows, otherwise select the ids of the visible rows. */
  function SelectAllResult(selected: set<string>, visible: seq<Contact>): (r: set<string>)
    ensures |selected| == |visible| ==> r == {}
    ensures |selected| != |visible| ==> r == Ids(visible)
  {
    if |selected| == |visible| then {} else Ids(visible)
  }

  /** Select-all compares sizes only: a selection of the same size as the
      visible list is cleared even when it holds none of the visible ids. */
  lemma SelectAllComparesSizesOnly(c: Contact)
    requires c.id != "other"
    ensures SelectAllResult({"other"}, [c]) == {}
    ensures "other" !in Ids([c])
  {
  }

  /** `handleSort`: the same column flips the direction; another column is
      taken with direction "asc". */
  function NextSort(current: SortField, dir: Direction, clicked: SortField): (r: (SortField, Direction))
    ensures r.0 == clicked
    ensures clicked == current ==> r.1 != dir
    ensures clicked != current ==> r.1 == Asc
  {
    if clicked == current then (current, if dir == Asc then Desc else Asc) else (clicked, Asc)
  }

  /** Clicking the same header twice returns to the original sort. */
  lemma SortTwiceRestores(current: SortField, dir: Direction, clicked: SortField)
    ensures var (f, d) := NextSort(current, dir, clicked);
      clicked == current ==> NextSort(f, d, clicked) == (current, dir)
  {
  }

  /** The table's state: the contacts it was given and the query, status
      filter, sort column, sort direction and selection it keeps. */
  class TableState {
    const contacts: seq<Contact>
    var searchQuery: string
    var statusFilter: string
    var sortField: SortField
    var sortDirection: Direction
    var selected: set<string>

    /** A fresh table: empty query, every status, newest first, nothing
        selected. */
    constructor (contacts: seq<Contact>)
      ensures this.contacts == contacts
      ensures searchQuery == "" && statusFilter == "all"
      ensures sortField == CreatedAt && sortDirection == Desc && selected == {}
    {
      this.contacts := contacts;
      searchQuery := "";
      statusFilter := "all";
      sortField := CreatedAt;
      sortDirection := Desc;
      selected := {};
    }

    function Visible(): seq<Contact>
      reads this
    {
      VisibleContacts(contacts, searchQuery, statusFilter, sortField, sortDirection)
    }

    method SelectContact(id: string)
      modifies this`selected
      ensures selected == Toggle(old(selected), id)
    {
      var newSelected := selected;
      if id in newSelected {
        newSelected := newSelected - {id};
      } else {
        newSelected := newSelected + {id};
      }
      selected := newSelected;
    }

    method SelectAll()
      modifies this`selected
      ensures selected == SelectAllResult(old(selected), Visible())
    {
      var visible := Visible();
      if |selected| == |visible| {
        selected := {};
      } else {
        selected := set k | 0 <= k < |visible| :: visible[k].id;
      }
    }

    method Sort(field: SortField)
      modifies this`sortField, this`sortDirection
      ensures (sortField, sortDirection) == NextSort(old(sortField), old(sortDirection), field)
    {
      if field == sortField {
        sortDirection := if sortDirection == Asc then Desc else Asc;
      } else {
        sortField := field;
        sortDirection := Asc;
      }
    }
  }
}
