/** The teacher list of the business side: keeping only faculty accounts, the
    pagination state with its five-wide page-number window and results range, and the
    specialization tag editor of the teacher form. */
module TeacherManagement {
  import opened Common

  datatype Role = Business | Faculty

  /** The fields of a fetched `User` the list depends on. */
  datatype User = User(id: string, email: string, firstName: string, lastName: string, role: Role)

  predicate IsFaculty(u: User) { u.role == Faculty }

  /** The fetched page reduced to faculty accounts, in the order received. */
  function FacultyOnly(users: seq<User>): (r: seq<User>)
    ensures forall u :: u in r <==> u in users && u.role == Faculty
  {
    Filter(users, IsFaculty)
  }

  lemma FacultyOnlyKeepsOrder(users: seq<User>)
    ensures IsSublist(FacultyOnly(users), users)
    ensures (forall u :: u in users ==> u.role == Faculty) ==> FacultyOnly(users) == users
  {
    FilterIsSublist(users, IsFaculty);
    if forall u :: u in users ==> u.role == Faculty {
      FilterAll(users, IsFaculty);
    }
  }

  // ---------------------------------------------------------------------------
  // Page-number window

  /** The page number on button `i` of the window. */
  function PageNumber(i: int, currentPage: int, totalPages: int): int {
    if totalPages <= 5 then i + 1
    else if currentPage <= 3 then i + 1
    else if currentPage >= totalPages - 2 then totalPages - 4 + i
    else currentPage - 2 + i
  }

  /** `Array.from({ length: Math.min(5, totalPages) }, …)`; a negative length yields no
      buttons. */
  function PageWindow(currentPage: int, totalPages: int): (r: seq<int>)
    ensures |r| == if totalPages <= 0 then 0 else Min(5, totalPages)
    ensures forall k :: 0 <= k < |r| - 1 ==> r[k + 1] == r[k] + 1
  {
    var n := if totalPages <= 0 then 0 else Min(5, totalPages);
    seq(n, i => PageNumber(i, currentPage, totalPages))
  }

  /** With the current page in range, every button is a real page and the current page
      has a button. */
  lemma PageWindowCoversCurrent(currentPage: int, totalPages: int)
    requires 1 <= currentPage <= totalPages
    ensures forall k :: 0 <= k < |PageWindow(currentPage, totalPages)| ==>
              1 <= PageWindow(currentPage, totalPages)[k] <= totalPages
    ensures currentPage in PageWindow(currentPage, totalPages)
  {
    var w := PageWindow(currentPage, totalPages);
    var k := currentPage - w[0];
    assert 0 <= k < |w| && w[k] == currentPage;
  }

  // ---------------------------------------------------------------------------
  // Results range

  /** "Showing `from` to `to` of `total` teachers", or "No teachers found". */
  datatype ResultsInfo = NoneFound | Showing(from: int, to: int, total: int)

  function ShowingFrom(page: int, perPage: int, totalItems: int): int {
    Min((page - 1) * perPage + 1, totalItems)
  }

  function ShowingTo(page: int, perPage: int, totalItems: int): int {
    Min(page * perPage, totalItems)
  }

  /** The results line. With a positive page size the range never runs backwards or
      past the total, starts at an item number on a real page and spans at most one
      page. */
  function Results(page: int, perPage: int, totalItems: int): (r: ResultsInfo)
    ensures r.NoneFound? <==> totalItems <= 0
    ensures r.Showing? ==> r.total == totalItems
    ensures r.Showing? ==>
              r.from == ShowingFrom(page, perPage, totalItems) && r.to == ShowingTo(page, perPage, totalItems)
    ensures r.Showing? && perPage >= 1 ==>
              r.from <= r.to <= r.total && r.to - r.from < perPage && (page >= 1 ==> 1 <= r.from)
  {
    if totalItems > 0 then
      ResultsRangeBounds(page, perPage, totalItems);
      Showing(ShowingFrom(page, perPage, totalItems), ShowingTo(page, perPage, totalItems), totalItems)
    else NoneFound
  }

  /** The range never runs backwards or past the total, and on a real page it starts at
      an item number and spans at most one page. */
  lemma ResultsRangeBounds(page: int, perPage: int, totalItems: int)
    requires totalItems > 0
    ensures perPage >= 1 ==>
              ShowingFrom(page, perPage, totalItems) <= ShowingTo(page, perPage, totalItems) <= totalItems
    ensures perPage >= 1 && page >= 1 ==> 1 <= ShowingFrom(page, perPage, totalItems)
    ensures perPage >= 1 ==> ShowingTo(page, perPage, totalItems) - ShowingFrom(page, perPage, totalItems) < perPage
  {
    assert (page - 1) * perPage == page * perPage - perPage;
    if page >= 1 && perPage >= 1 {
      assert (page - 1) * perPage >= 0;
    }
  }

  /** The pagination fields of the page. */
  class Pagination {
    var currentPage: int
    var totalPages: int
    var totalItems: int
    var itemsPerPage: int

    constructor ()
      ensures currentPage == 1 && totalPages == 1 && totalItems == 0 && itemsPerPage == 12
    {
      currentPage, totalPages, totalItems, itemsPerPage := 1, 1, 0, 12;
    }

    /** The buttons drawn, when the pagination bar is drawn at all (more than one page). */
    function Window(): (r: seq<int>)
      reads this
      ensures totalPages > 1 && 1 <= currentPage <= totalPages ==> currentPage in r
    {
      if totalPages > 1 && 1 <= currentPage <= totalPages then
        PageWindowCoversCurrent(currentPage, totalPages);
        PageWindow(currentPage, totalPages)
      else
        PageWindow(currentPage, totalPages)
    }

    /** `handlePageChange`. */
    method PageChange(page: int)
      modifies this
      ensures currentPage == page
      ensures totalPages == old(totalPages) && totalItems == old(totalItems) && itemsPerPage == old(itemsPerPage)
    {
      currentPage := page;
    }

    /** `handleItemsPerPageChange`: the new limit, back on the first page. */
    method ItemsPerPageChange(limit: int)
      modifies this
      ensures itemsPerPage == limit && currentPage == 1
      ensures totalPages == old(totalPages) && totalItems == old(totalItems)
    {
      itemsPerPage := limit;
      currentPage := 1;
    }

    /** A response's `pagination` block replaces the totals. */
    method Loaded(pages: int, items: int)
      modifies this
      ensures totalPages == pages && totalItems == items
      ensures currentPage == old(currentPage) && itemsPerPage == old(itemsPerPage)
    {
      totalPages, totalItems := pages, items;
    }
  }

  // ---------------------------------------------------------------------------
  // Specialization tags

  /** The characters `String.prototype.trim` removes: the ECMAScript white space and
      line terminators. */
  predicate IsWhite(c: char) {
    c == '\t' || c == '\n' || c == '\U{B}' || c == '\U{C}' || c == '\r' || c == ' ' ||
    c == '\U{A0}' || c == '\U{1680}' || ('\U{2000}' <= c <= '\U{200A}') || c == '\U{2028}' ||
    c == '\U{2029}' || c == '\U{202F}' || c == '\U{205F}' || c == '\U{3000}' || c == '\U{FEFF}'
  }

  /** The number of leading white-space characters. */
  function Leading(s: string): (r: nat)
    ensures r <= |s|
    ensures forall i :: 0 <= i < r ==> IsWhite(s[i])
    ensures r < |s| ==> !IsWhite(s[r])
  {
    if s == [] || !IsWhite(s[0]) then 0 else 1 + Leading(s[1..])
  }

  /** The number of trailing white-space characters. */
  function Trailing(s: string): (r: nat)
    ensures r <= |s|
    ensures forall i :: |s| - r <= i < |s| ==> IsWhite(s[i])
    ensures r < |s| ==> !IsWhite(s[|s| - r - 1])
  {
    if s == [] || !IsWhite(s[|s| - 1]) then 0 else 1 + Trailing(s[..|s| - 1])
  }

  /** `r` is what is left of `s` after removing white space before offset `i` and after
      offset `i + |r|`. */
  predicate TrimmedAt(s: string, r: string, i: int) {
    0 <= i <= |s| - |r| && s[i..i + |r|] == r &&
    (forall k :: 0 <= k < i ==> IsWhite(s[k])) &&
    (forall k :: i + |r| <= k < |s| ==> IsWhite(s[k]))
  }

  /** `trim()`: the longest middle part of `s` that neither starts nor ends with white
      space. */
  function Trim(s: string): (r: string)
    ensures r == [] || (!IsWhite(r[0]) && !IsWhite(r[|r| - 1]))
    ensures exists i :: TrimmedAt(s, r, i)
  {
    var a := Leading(s);
    var t := s[a..];
    var r := t[..|t| - Trailing(t)];
    assert s[a..a + |r|] == r;
    assert TrimmedAt(s, r, a);
    r
  }

  /** Trimming a trimmed string changes nothing. */
  lemma TrimIdempotent(s: string)
    ensures Trim(Trim(s)) == Trim(s)
  {
    var r := Trim(s);
    if r != [] {
      assert Leading(r) == 0;
      assert r[0..] == r;
      assert Trailing(r) == 0;
    }
  }

  /** A string with nothing to trim is its own trim. */
  lemma TrimOfUntrimmable(s: string)
    requires s == [] || (!IsWhite(s[0]) && !IsWhite(s[|s| - 1]))
    ensures Trim(s) == s
  {
    if s != [] {
      assert Leading(s) == 0 && s[0..] == s;
      assert Trailing(s) == 0;
    }
  }

  /** `tags.filter((_, i) => i !== index)`. */
  function RemoveAt(tags: seq<string>, index: int): (r: seq<string>)
    ensures 0 <= index < |tags| ==> |r| == |tags| - 1
    ensures 0 <= index < |tags| ==>
              (forall i :: 0 <= i < index ==> r[i] == tags[i]) &&
              (forall i :: index <= i < |r| ==> r[i] == tags[i + 1])
    ensures !(0 <= index < |tags|) ==> r == tags
  {
    if 0 <= index < |tags| then tags[..index] + tags[index + 1..] else tags
  }

  /** Removing by index drops exactly that occurrence, and keeps a duplicate-free list
      duplicate-free; Backspace's `slice(0, -1)` is removal of the last index. */
  lemma RemoveAtProperties(tags: seq<string>, index: int)
    requires 0 <= index < |tags|
    ensures multiset(RemoveAt(tags, index)) + multiset{tags[index]} == multiset(tags)
    ensures NoDuplicates(tags) ==> NoDuplicates(RemoveAt(tags, index)) && tags[index] !in RemoveAt(tags, index)
    ensures RemoveAt(tags, |tags| - 1) == tags[..|tags| - 1]
  {
    assert tags == tags[..index] + [tags[index]] + tags[index + 1..];
    var r := RemoveAt(tags, index);
    if NoDuplicates(tags) {
      forall i | 0 <= i < |r| ensures r[i] != tags[index] {
        if i < index { assert r[i] == tags[i]; } else { assert r[i] == tags[i + 1]; }
      }
    }
  }

  /** The keys the tag input reacts to. */
  datatype Key = Enter | Comma | Backspace | OtherKey

  /** A stored tag: nonempty and already trimmed. */
  predicate IsTag(t: string) {
    t != "" && Trim(t) == t
  }

  /** The `specialization` list of the form and the text typed next to it. */
  class TagEditor {
    var tags: seq<string>
    var input: string

    /** The list is duplicate-free and holds only trimmed, nonempty tags. */
    predicate Valid()
      reads this
    {
      NoDuplicates(tags) && forall t :: t in tags ==> IsTag(t)
    }

    constructor ()
      ensures tags == [] && input == "" && Valid()
    {
      tags, input := [], "";
    }

    method Type(text: string)
      modifies this
      ensures input == text && tags == old(tags)
    {
      input := text;
    }

    /** `onKeyDown`: Enter or comma adds the trimmed input when it is new, and only then
        clears the input; Backspace on an empty input drops the last tag. */
    method KeyDown(key: Key)
      requires Valid()
      modifies this
      ensures Valid()
      ensures (key == Enter || key == Comma) ==>
                var v := Trim(old(input));
                if v != "" && v !in old(tags) then tags == old(tags) + [v] && input == ""
                else tags == old(tags) && input == old(input)
      ensures key == Backspace ==>
                input == old(input) &&
                tags == if old(input) == "" && |old(tags)| > 0 then old(tags)[..|old(tags)| - 1] else old(tags)
      ensures key == OtherKey ==> tags == old(tags) && input == old(input)
    {
      if key == Enter || key == Comma {
        var value := Trim(input);
        if value != "" && value !in tags {
          TrimIdempotent(input);
          tags := tags + [value];
          input := "";
        }
      } else if key == Backspace && input == "" && |tags| > 0 {
        RemoveAtProperties(tags, |tags| - 1);
        tags := tags[..|tags| - 1];
      }
    }

    /** The × button of tag `index`. */
    method Remove(index: int)
      requires Valid() && 0 <= index < |tags|
      modifies this
      ensures Valid()
      ensures tags == RemoveAt(old(tags), index) && input == old(input)
    {
      RemoveAtProperties(tags, index);
      tags := RemoveAt(tags, index);
    }
  }
}
