/**
 What the table shows of the user list: the name search (`applyFilter`), the pager
 (`paginate`) and the previous/next page buttons.
 */
module View {
  import opened Optional
  import opened JsValue
  import opened Text
  import opened Seqs
  import opened Entities

  const PageSize := 5

  /** `filteredUsers` with the `currentPage` cursor. */
  datatype Listing = Listing(filtered: seq<Entity>, page: int)

  /** `u.name.toLowerCase()` is defined only for a string name; on anything else it
      throws. */
  predicate HasStringName(u: Entity) {
    "name" in u.fields && u.fields["name"].Str?
  }

  /** The callback `(u) => u.name.toLowerCase().includes(term)`. */
  function NameHas(term: string): Entity -> bool {
    (u: Entity) => HasStringName(u) && Contains(Lower(u.fields["name"].s), term)
  }

  /** `applyFilter`: the search box value, trimmed and lower-cased, selects the users
      whose lower-cased name contains it, or all users when it is empty, and the page is
      reset to 1. `None` when the search throws on a user without a string name. */
  function ApplyFilter(users: seq<Entity>, input: string): (r: Option<Listing>)
    ensures Lower(Trim(input)) == [] ==> r == Some(Listing(users, 1))
    ensures Lower(Trim(input)) != [] ==> (r.None? <==> exists i :: 0 <= i < |users| && !HasStringName(users[i]))
    ensures r.Some? ==> r.value.page == 1 && IsSubsequence(r.value.filtered, users)
    ensures r.Some? ==> forall i :: 0 <= i < |r.value.filtered| ==>
              r.value.filtered[i] in users && (Lower(Trim(input)) != [] ==> NameHas(Lower(Trim(input)))(r.value.filtered[i]))
    ensures r.Some? ==> forall i :: 0 <= i < |users| && NameHas(Lower(Trim(input)))(users[i]) ==> users[i] in r.value.filtered
    ensures r.Some? ==> forall u :: multiset(r.value.filtered)[u]
                                    == if Lower(Trim(input)) == [] || NameHas(Lower(Trim(input)))(u) then multiset(users)[u] else 0
  {
    var term := Lower(Trim(input));
    if term == [] then
      SubsequenceOfItself(users);
      Some(Listing(users, 1))
    else if forall i :: 0 <= i < |users| ==> HasStringName(users[i]) then
      NameSearch(users, term);
      Some(Listing(Filter(users, NameHas(term)), 1))
    else
      None
  }

  /** The users a non-empty search keeps: the matching ones, in order, with every copy. */
  lemma NameSearch(users: seq<Entity>, term: string)
    ensures var r := Filter(users, NameHas(term));
            && IsSubsequence(r, users)
            && (forall i :: 0 <= i < |r| ==> r[i] in users && NameHas(term)(r[i]))
            && (forall i :: 0 <= i < |users| && NameHas(term)(users[i]) ==> users[i] in r)
            && (forall u :: multiset(r)[u] == if NameHas(term)(u) then multiset(users)[u] else 0)
  {
    FilterIsSubsequence(users, NameHas(term));
    FilterMembers(users, NameHas(term));
    FilterMultiplicities(users, NameHas(term));
  }

  function Min(a: int, b: int): int {
    if a < b then a else b
  }

  function Max(a: int, b: int): int {
    if a < b then b else a
  }

  /** `s.slice(start, end)`: negative bounds count from the end, and both bounds are
      clamped into the sequence. */
  function JsSlice<T>(s: seq<T>, start: int, end: int): (r: seq<T>)
    ensures 0 <= start <= end ==> r == s[Min(start, |s|)..Min(end, |s|)]
  {
    var from := if start < 0 then Max(|s| + start, 0) else Min(start, |s|);
    var to := if end < 0 then Max(|s| + end, 0) else Min(end, |s|);
    if from < to then s[from..to] else []
  }

  /** The pager's output: the page's users, the clamped page, the page count, and
      whether the previous and next buttons are disabled. */
  datatype Pager = Pager(items: seq<Entity>, page: int, totalPages: int, prevDisabled: bool, nextDisabled: bool)

  /** `paginate`: a current page beyond the last is pulled back to the last, and the
      page shows the `PageSize` users starting at `(page - 1) * PageSize`. */
  function Paginate(filtered: seq<Entity>, currentPage: int): (r: Pager)
    ensures r.totalPages >= 1
    ensures |filtered| <= r.totalPages * PageSize
    ensures r.totalPages == 1 || (r.totalPages - 1) * PageSize < |filtered|
    ensures r.page <= currentPage && (r.page < currentPage ==> r.page == r.totalPages)
    ensures currentPage >= 1 ==> 1 <= r.page <= r.totalPages
    ensures currentPage >= 1 ==> (r.page - 1) * PageSize <= |filtered|
                                 && r.items == filtered[(r.page - 1) * PageSize..Min(r.page * PageSize, |filtered|)]
    ensures |r.items| <= PageSize
    ensures currentPage >= 1 ==> (r.items == [] <==> filtered == [])
    ensures r.prevDisabled <==> r.page == 1
    ensures r.nextDisabled <==> r.page == r.totalPages
  {
    var totalPages := Max(1, (|filtered| + PageSize - 1) / PageSize);
    var page := if currentPage > totalPages then totalPages else currentPage;
    var start := (page - 1) * PageSize;
    var end := start + PageSize;
    Pager(JsSlice(filtered, start, end), page, totalPages, page == 1, page == totalPages)
  }

  /** Every listed user is on exactly the page its position says, at the position within
      the page its position says. */
  lemma EveryUserOnItsPage(filtered: seq<Entity>, k: int)
    requires 0 <= k < |filtered|
    ensures Paginate(filtered, k / PageSize + 1).page == k / PageSize + 1
    ensures Paginate(filtered, k / PageSize + 1).items[k % PageSize] == filtered[k]
  {
  }

  /** The previous button: `Math.max(1, currentPage - 1)`. */
  function PrevPage(page: int): (r: int)
    ensures r >= 1
    ensures page > 1 ==> r == page - 1
    ensures page <= 1 ==> r == 1
  {
    Max(1, page - 1)
  }

  /** The next button: `currentPage + 1`, left for `paginate` to clamp. */
  function NextPage(page: int): int {
    page + 1
  }

  /** The page cursor starts at 1 and every event keeps it at 1 or more; pressing next
      on the last page lands back on the last page. */
  lemma PageCursorStaysValid(filtered: seq<Entity>, page: int)
    requires page >= 1
    ensures PrevPage(page) >= 1 && NextPage(page) >= 1 && Paginate(filtered, page).page >= 1
    ensures var last := Paginate(filtered, page).totalPages;
            Paginate(filtered, NextPage(last)).page == last
  {
  }
}
