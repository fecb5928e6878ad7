/**
 * The `expenses` table and the three queries on it: the date-range listing
 * (`ORDER BY date DESC, id DESC`), the per-category summary
 * (`GROUP BY category ORDER BY total_amount DESC`) and the owner-scoped delete.
 * Amounts are integers (cents).
 */
module Ledger {
  import opened Wrappers
  import opened Collation
  import opened Sequences

  /** One row of the `expenses` table. */
  datatype Expense = Expense(id: int, owner: string, date: string, amount: int, category: string, subcategory: string, note: string)

  /** A row as the listing returns it: every column except `user_id`. */
  datatype Row = Row(id: int, date: string, amount: int, category: string, subcategory: string, note: string)

  function RowOf(e: Expense): Row {
    Row(e.id, e.date, e.amount, e.category, e.subcategory, e.note)
  }

  function RowAmount(r: Row): int { r.amount }

  /** The AUTOINCREMENT ids: strictly increasing in table order, hence distinct. */
  ghost predicate IdsAscending(expenses: seq<Expense>) {
    forall i, j :: 0 <= i < j < |expenses| ==> expenses[i].id < expenses[j].id
  }

  /** `date BETWEEN startDate AND endDate` on TEXT. */
  predicate InRange(date: string, startDate: string, endDate: string) {
    LexLe(startDate, date) && LexLe(date, endDate)
  }

  predicate Matches(e: Expense, owner: string, startDate: string, endDate: string) {
    e.owner == owner && InRange(e.date, startDate, endDate)
  }

  /** `WHERE user_id = ? AND date BETWEEN ? AND ?`, in table order, projected to rows. */
  function Select(expenses: seq<Expense>, owner: string, startDate: string, endDate: string): (r: seq<Row>)
    ensures |r| <= |expenses|
    ensures forall x :: x in r <==> exists e :: e in expenses && Matches(e, owner, startDate, endDate) && RowOf(e) == x
    ensures IdsAscending(expenses) ==> forall i, j :: 0 <= i < j < |r| ==> r[i].id < r[j].id
  {
    if expenses == [] then []
    else
      assert expenses == [expenses[0]] + expenses[1..];
      var rest := Select(expenses[1..], owner, startDate, endDate);
      if Matches(expenses[0], owner, startDate, endDate) then
        assert IdsAscending(expenses) ==> forall j :: 0 <= j < |rest| ==> expenses[0].id < rest[j].id by {
          if IdsAscending(expenses) {
            IdsAscendingTail(expenses);
            forall j | 0 <= j < |rest| ensures expenses[0].id < rest[j].id {
              assert rest[j] in rest;
            }
          }
        }
        [RowOf(expenses[0])] + rest
      else
        assert IdsAscending(expenses) ==> IdsAscending(expenses[1..]) by {
          if IdsAscending(expenses) {
            IdsAscendingTail(expenses);
          }
        }
        rest
  }

  /** The rows of one tenant, in table order. */
  function OwnedBy(expenses: seq<Expense>, owner: string): (r: seq<Expense>)
    ensures forall e :: e in r <==> e in expenses && e.owner == owner
    ensures |r| <= |expenses|
    ensures IdsAscending(expenses) ==> IdsAscending(r)
  {
    if expenses == [] then []
    else
      assert expenses == [expenses[0]] + expenses[1..];
      var rest := OwnedBy(expenses[1..], owner);
      assert IdsAscending(expenses) ==> IdsAscending(rest) && IdsAscending([expenses[0]] + rest) by {
        if IdsAscending(expenses) {
          IdsAscendingTail(expenses);
          ConsAscending(expenses[0], rest);
        }
      }
      if expenses[0].owner == owner then [expenses[0]] + rest else rest
  }

  /** `ORDER BY date DESC, id DESC`: `a` may be listed before `b`. */
  predicate NewestFirst(a: Row, b: Row) {
    !LexLe(a.date, b.date) || (a.date == b.date && a.id >= b.id)
  }

  lemma NewestFirstTotalPreorder()
    ensures TotalPreorder(NewestFirst)
  {
    forall a: Row, b: Row ensures NewestFirst(a, b) || NewestFirst(b, a) {
      LexLeTotal(a.date, b.date);
      if LexLe(a.date, b.date) && LexLe(b.date, a.date) {
        LexLeAntisymmetric(a.date, b.date);
      }
    }
    forall a: Row, b: Row, c: Row | NewestFirst(a, b) && NewestFirst(b, c) ensures NewestFirst(a, c) {
      if LexLe(a.date, c.date) {
        if !LexLe(a.date, b.date) {
          LexLeTotal(a.date, b.date);
          if LexLe(b.date, c.date) {
            LexLeTransitive(b.date, c.date, a.date);
            LexLeAntisymmetric(b.date, c.date);
          }
          LexLeTransitive(b.date, a.date, c.date);
        } else if !LexLe(b.date, c.date) {
          LexLeTransitive(b.date, a.date, c.date);
        }
      }
    }
  }

  /** `list_expenses`: the caller's rows in the range, newest first. */
  function ListRows(expenses: seq<Expense>, owner: string, startDate: string, endDate: string): (r: seq<Row>)
    ensures multiset(r) == multiset(Select(expenses, owner, startDate, endDate))
    ensures SortedBy(r, NewestFirst)
  {
    var selected := Select(expenses, owner, startDate, endDate);
    NewestFirstTotalPreorder();
    SortBySorted(selected, NewestFirst);
    SortBy(selected, NewestFirst)
  }

  /** A row is listed exactly when one of the caller's expenses in the range projects to it. */
  lemma ListRowsMembers(expenses: seq<Expense>, owner: string, startDate: string, endDate: string, x: Row)
    ensures x in ListRows(expenses, owner, startDate, endDate) <==>
      exists e :: e in expenses && e.owner == owner && InRange(e.date, startDate, endDate) && RowOf(e) == x
  {
    var selected := Select(expenses, owner, startDate, endDate);
    var listed := ListRows(expenses, owner, startDate, endDate);
    assert x in listed <==> x in multiset(listed);
    assert x in selected <==> x in multiset(selected);
    assert x in selected <==> exists e :: e in expenses && Matches(e, owner, startDate, endDate) && RowOf(e) == x;
  }

  /** A reversed range (`startDate > endDate`) lists nothing and is not an error. */
  lemma ListRowsReversedRange(expenses: seq<Expense>, owner: string, startDate: string, endDate: string)
    requires !LexLe(startDate, endDate)
    ensures ListRows(expenses, owner, startDate, endDate) == []
  {
    var selected := Select(expenses, owner, startDate, endDate);
    if selected != [] {
      assert selected[0] in selected;
      var e :| e in expenses && Matches(e, owner, startDate, endDate) && RowOf(e) == selected[0];
      LexLeTransitive(startDate, e.date, endDate);
    }
  }

  lemma {:induction false} SelectOwnedBy(expenses: seq<Expense>, owner: string, startDate: string, endDate: string)
    ensures Select(OwnedBy(expenses, owner), owner, startDate, endDate) == Select(expenses, owner, startDate, endDate)
  {
    if expenses != [] {
      SelectOwnedBy(expenses[1..], owner, startDate, endDate);
      var rest := OwnedBy(expenses[1..], owner);
      if expenses[0].owner == owner {
        assert ([expenses[0]] + rest)[1..] == rest;
      }
    }
  }

  // ----- summarize -----

  /** One line of the summary: `category, SUM(amount) AS total_amount, COUNT(*) AS count`. */
  datatype Group = Group(category: string, totalAmount: int, count: nat)

  /** The summary: the grand total and the per-category lines. */
  datatype Summary = Summary(totalAmount: int, summary: seq<Group>)

  function GroupCategory(g: Group): string { g.category }

  function GroupTotal(g: Group): int { g.totalAmount }

  /** The rows whose category is exactly `category` (BINARY equality). */
  function OfCategory(rows: seq<Row>, category: string): (r: seq<Row>)
    ensures forall x :: x in r <==> x in rows && x.category == category
    ensures |r| == CategoryCount(rows, category)
  {
    if rows == [] then []
    else
      assert rows == [rows[0]] + rows[1..];
      var rest := OfCategory(rows[1..], category);
      if rows[0].category == category then [rows[0]] + rest else rest
  }

  /** `if category: query += " AND category = ?"`: no filter for `None` or `""`. */
  function WithCategory(rows: seq<Row>, category: Option<string>): seq<Row> {
    if category.Some? && category.value != "" then OfCategory(rows, category.value) else rows
  }

  /** The sum of the amounts of the rows in `category`. */
  function CategorySum(rows: seq<Row>, category: string): int {
    if rows == [] then 0
    else (if rows[0].category == category then rows[0].amount else 0) + CategorySum(rows[1..], category)
  }

  /** The number of rows in `category`. */
  function CategoryCount(rows: seq<Row>, category: string): nat {
    if rows == [] then 0
    else (if rows[0].category == category then 1 else 0) + CategoryCount(rows[1..], category)
  }

  lemma {:induction false} AbsentCategory(rows: seq<Row>, category: string)
    requires forall k :: 0 <= k < |rows| ==> rows[k].category != category
    ensures CategorySum(rows, category) == 0 && CategoryCount(rows, category) == 0
  {
    if rows != [] {
      AbsentCategory(rows[1..], category);
    }
  }

  /** `g` is the correct summary line for its category over `rows`. */
  ghost predicate GroupFits(g: Group, rows: seq<Row>) {
    g.totalAmount == CategorySum(rows, g.category) && g.count == CategoryCount(rows, g.category) && g.count >= 1
  }

  /**
   * `gs` is a `GROUP BY category` of `rows`: one line per distinct category of
   * `rows` and no other, each with that category's sum and count.
   */
  ghost predicate GroupsOf(gs: seq<Group>, rows: seq<Row>) {
    && DistinctBy(gs, GroupCategory)
    && (forall g :: g in gs ==> GroupFits(g, rows))
    && (forall k :: 0 <= k < |rows| ==> exists g :: g in gs && g.category == rows[k].category)
  }

  /** The position of the line for `category`, or `|gs|` when there is none. */
  function CategoryIndex(gs: seq<Group>, category: string): (i: nat)
    ensures i <= |gs|
    ensures i < |gs| ==> gs[i].category == category
    ensures i == |gs| ==> forall j :: 0 <= j < |gs| ==> gs[j].category != category
  {
    if gs == [] then 0
    else if gs[0].category == category then 0
    else 1 + CategoryIndex(gs[1..], category)
  }

  /** Accounts one more row in the grouping. */
  function AddRow(gs: seq<Group>, r: Row): seq<Group> {
    var i := CategoryIndex(gs, r.category);
    if i < |gs| then gs[i := Group(r.category, gs[i].totalAmount + r.amount, gs[i].count + 1)]
    else gs + [Group(r.category, r.amount, 1)]
  }

  lemma AddRowGroups(gs: seq<Group>, r: Row, rest: seq<Row>)
    requires GroupsOf(gs, rest)
    requires SumBy(gs, GroupTotal) == SumBy(rest, RowAmount)
    ensures GroupsOf(AddRow(gs, r), [r] + rest)
    ensures SumBy(AddRow(gs, r), GroupTotal) == SumBy([r] + rest, RowAmount)
  {
    var rows := [r] + rest;
    assert rows[0] == r && rows[1..] == rest;
    if CategoryIndex(gs, r.category) < |gs| {
      AddRowExisting(gs, r, rest);
    } else {
      AddRowNew(gs, r, rest);
    }
  }

  /** A row of a category already present adds to that category's line. */
  lemma AddRowExisting(gs: seq<Group>, r: Row, rest: seq<Row>)
    requires GroupsOf(gs, rest)
    requires SumBy(gs, GroupTotal) == SumBy(rest, RowAmount)
    requires CategoryIndex(gs, r.category) < |gs|
    ensures GroupsOf(AddRow(gs, r), [r] + rest)
    ensures SumBy(AddRow(gs, r), GroupTotal) == SumBy([r] + rest, RowAmount)
  {
    var rows := [r] + rest;
    var i := CategoryIndex(gs, r.category);
    var g' := Group(r.category, gs[i].totalAmount + r.amount, gs[i].count + 1);
    var gs' := gs[i := g'];
    assert gs' == AddRow(gs, r);
    forall m, n | 0 <= m < n < |gs'| ensures GroupCategory(gs'[m]) != GroupCategory(gs'[n]) {
      assert GroupCategory(gs'[m]) == GroupCategory(gs[m]) && GroupCategory(gs'[n]) == GroupCategory(gs[n]);
    }
    ExistingFits(gs, r, rest);
    forall g | g in gs' ensures GroupFits(g, rows) {
      var j :| 0 <= j < |gs'| && gs'[j] == g;
    }
    ExistingCovers(gs, i, g', r, rest);
    SumByUpdate(gs, i, g', GroupTotal);
    assert rows[0] == r && rows[1..] == rest;
  }

  lemma ExistingFits(gs: seq<Group>, r: Row, rest: seq<Row>)
    requires GroupsOf(gs, rest)
    requires CategoryIndex(gs, r.category) < |gs|
    ensures |AddRow(gs, r)| == |gs|
    ensures forall j :: 0 <= j < |gs| ==> GroupFits(AddRow(gs, r)[j], [r] + rest)
  {
    var rows := [r] + rest;
    assert rows[0] == r && rows[1..] == rest;
    var i := CategoryIndex(gs, r.category);
    var gs' := AddRow(gs, r);
    forall j | 0 <= j < |gs| ensures GroupFits(gs'[j], rows) {
      assert gs[j] in gs;
      if j != i {
        assert GroupCategory(gs[j]) != GroupCategory(gs[i]) by {
          if j < i { } else { }
        }
      }
    }
  }

  /** Replacing a line by one of the same category keeps every category covered, the new row's too. */
  lemma ExistingCovers(gs: seq<Group>, i: nat, g': Group, r: Row, rest: seq<Row>)
    requires i < |gs| && g'.category == gs[i].category == r.category
    requires forall k :: 0 <= k < |rest| ==> exists g :: g in gs && g.category == rest[k].category
    ensures forall k :: 0 <= k < |rest| + 1 ==> exists g :: g in gs[i := g'] && g.category == ([r] + rest)[k].category
  {
    var rows := [r] + rest;
    var gs' := gs[i := g'];
    forall k | 0 <= k < |rows| ensures exists g :: g in gs' && g.category == rows[k].category {
      if k == 0 {
        assert rows[0] == r && gs'[i] == g' && gs'[i] in gs';
      } else {
        var c := rest[k - 1].category;
        assert rows[k] == rest[k - 1];
        var g :| g in gs && g.category == c;
        var j :| 0 <= j < |gs| && gs[j] == g;
        assert gs'[j] in gs' && gs'[j].category == c;
      }
    }
  }

  /** A row of a new category opens a one-row line at the end. */
  lemma AddRowNew(gs: seq<Group>, r: Row, rest: seq<Row>)
    requires GroupsOf(gs, rest)
    requires SumBy(gs, GroupTotal) == SumBy(rest, RowAmount)
    requires CategoryIndex(gs, r.category) == |gs|
    ensures GroupsOf(AddRow(gs, r), [r] + rest)
    ensures SumBy(AddRow(gs, r), GroupTotal) == SumBy([r] + rest, RowAmount)
  {
    var rows := [r] + rest;
    assert rows[0] == r && rows[1..] == rest;
    var g' := Group(r.category, r.amount, 1);
    var gs' := gs + [g'];
    forall m, n | 0 <= m < n < |gs'| ensures GroupCategory(gs'[m]) != GroupCategory(gs'[n]) {
      assert gs'[m] == gs[m];
    }
    forall k | 0 <= k < |rest| ensures rest[k].category != r.category {
      var g :| g in gs && g.category == rest[k].category;
    }
    AbsentCategory(rest, r.category);
    forall g | g in gs' ensures GroupFits(g, rows) {
      if g != g' {
        assert g in gs;
        var j :| 0 <= j < |gs| && gs[j] == g;
      }
    }
    forall k | 0 <= k < |rows| ensures exists g :: g in gs' && g.category == rows[k].category {
      if k == 0 {
        assert gs'[|gs|] in gs';
      } else {
        assert rows[k] == rest[k - 1];
        var g :| g in gs && g.category == rest[k - 1].category;
        assert g in gs';
      }
    }
    SumByAppend(gs, g', GroupTotal);
  }

  /** `GROUP BY category`, lines in order of first appearance; the line totals add up to the rows' total. */
  function GroupByCategory(rows: seq<Row>): (gs: seq<Group>)
    ensures GroupsOf(gs, rows)
    ensures SumBy(gs, GroupTotal) == SumBy(rows, RowAmount)
  {
    if rows == [] then []
    else
      assert rows == [rows[0]] + rows[1..];
      var gs := GroupByCategory(rows[1..]);
      AddRowGroups(gs, rows[0], rows[1..]);
      AddRow(gs, rows[0])
  }

  /** `ORDER BY total_amount DESC`: `a` may come before `b`. */
  predicate LargestFirst(a: Group, b: Group) {
    a.totalAmount >= b.totalAmount
  }

  lemma {:induction false} CategoryPresent(rows: seq<Row>, category: string)
    requires CategoryCount(rows, category) >= 1
    ensures exists k :: 0 <= k < |rows| && rows[k].category == category
  {
    if rows[0].category != category {
      CategoryPresent(rows[1..], category);
      var k :| 0 <= k < |rows[1..]| && rows[1..][k].category == category;
      assert rows[k + 1].category == category;
    }
  }

  /** Sorting the lines keeps them a grouping of the same rows with the same total. */
  lemma SortGroups(gs: seq<Group>, rows: seq<Row>)
    requires GroupsOf(gs, rows)
    ensures GroupsOf(SortBy(gs, LargestFirst), rows)
    ensures SortedBy(SortBy(gs, LargestFirst), LargestFirst)
    ensures SumBy(SortBy(gs, LargestFirst), GroupTotal) == SumBy(gs, GroupTotal)
  {
    var sorted := SortBy(gs, LargestFirst);
    SortByDistinct(gs, LargestFirst, GroupCategory);
    SortBySorted(gs, LargestFirst);
    SumBySortBy(gs, LargestFirst, GroupTotal);
    forall g | g in sorted ensures GroupFits(g, rows) {
      assert g in multiset(sorted);
    }
    forall k | 0 <= k < |rows| ensures exists g :: g in sorted && g.category == rows[k].category {
      var g :| g in gs && g.category == rows[k].category;
      assert g in multiset(gs);
      assert g in sorted;
    }
  }

  /** `summarize`: the caller's rows in the range (and in `category`, when one is given), grouped by category. */
  function SummarizeRows(expenses: seq<Expense>, owner: string, startDate: string, endDate: string, category: Option<string>): (r: Summary)
    ensures GroupsOf(r.summary, WithCategory(Select(expenses, owner, startDate, endDate), category))
    ensures SortedBy(r.summary, LargestFirst)
    ensures r.totalAmount == SumBy(r.summary, GroupTotal)
    ensures r.totalAmount == SumBy(WithCategory(Select(expenses, owner, startDate, endDate), category), RowAmount)
  {
    var matching := WithCategory(Select(expenses, owner, startDate, endDate), category);
    var groups := GroupByCategory(matching);
    SortGroups(groups, matching);
    var summary := SortBy(groups, LargestFirst);
    Summary(SumBy(summary, GroupTotal), summary)
  }

  /** Without a category filter the grand total is the sum over the rows the listing returns. */
  lemma SummaryTotalIsListingTotal(expenses: seq<Expense>, owner: string, startDate: string, endDate: string, category: Option<string>)
    requires category.None? || category == Some("")
    ensures SummarizeRows(expenses, owner, startDate, endDate, category).totalAmount ==
            SumBy(ListRows(expenses, owner, startDate, endDate), RowAmount)
  {
    SumBySortBy(Select(expenses, owner, startDate, endDate), NewestFirst, RowAmount);
  }

  /** No matching rows: a zero total and no lines, not an error. */
  lemma SummaryOfNothing(expenses: seq<Expense>, owner: string, startDate: string, endDate: string, category: Option<string>)
    requires WithCategory(Select(expenses, owner, startDate, endDate), category) == []
    ensures SummarizeRows(expenses, owner, startDate, endDate, category) == Summary(0, [])
  {
  }

  /** With a category filter, every line is for that category, so there is at most one. */
  lemma SummaryFiltered(expenses: seq<Expense>, owner: string, startDate: string, endDate: string, category: string)
    requires category != ""
    ensures forall g :: g in SummarizeRows(expenses, owner, startDate, endDate, Some(category)).summary ==> g.category == category
    ensures |SummarizeRows(expenses, owner, startDate, endDate, Some(category)).summary| <= 1
  {
    var matching := WithCategory(Select(expenses, owner, startDate, endDate), Some(category));
    var r := SummarizeRows(expenses, owner, startDate, endDate, Some(category));
    assert |r.summary| > 1 ==> GroupCategory(r.summary[0]) != GroupCategory(r.summary[1]);
    forall g | g in r.summary ensures g.category == category {
      CategoryPresent(matching, g.category);
      var k :| 0 <= k < |matching| && matching[k].category == g.category;
      assert matching[k] in matching;
    }
    forall k | 0 <= k < |r.summary| ensures GroupCategory(r.summary[k]) == category {
      assert r.summary[k] in r.summary;
    }
  }

  /** A tenant's listing and summary depend on that tenant's rows alone. */
  lemma TenantIsolation(a: seq<Expense>, b: seq<Expense>, owner: string, startDate: string, endDate: string, category: Option<string>)
    requires OwnedBy(a, owner) == OwnedBy(b, owner)
    ensures ListRows(a, owner, startDate, endDate) == ListRows(b, owner, startDate, endDate)
    ensures SummarizeRows(a, owner, startDate, endDate, category) == SummarizeRows(b, owner, startDate, endDate, category)
  {
    SelectOwnedBy(a, owner, startDate, endDate);
    SelectOwnedBy(b, owner, startDate, endDate);
  }

  /** Appending another tenant's row leaves this tenant's rows as they were. */
  lemma {:induction false} OwnedByAppend(expenses: seq<Expense>, e: Expense, owner: string)
    ensures OwnedBy(expenses + [e], owner) == OwnedBy(expenses, owner) + (if e.owner == owner then [e] else [])
  {
    if expenses != [] {
      assert (expenses + [e])[1..] == expenses[1..] + [e];
      OwnedByAppend(expenses[1..], e, owner);
    } else {
      assert ([e])[1..] == [];
    }
  }

  // ----- delete -----

  /** `SELECT 1 FROM expenses WHERE id = ? AND user_id = ?` finds a row. */
  predicate Owns(expenses: seq<Expense>, id: int, owner: string) {
    exists k :: 0 <= k < |expenses| && expenses[k].id == id && expenses[k].owner == owner
  }

  /** `DELETE FROM expenses WHERE id = ? AND user_id = ?`. */
  function DeleteWhere(expenses: seq<Expense>, id: int, owner: string): (r: seq<Expense>)
    ensures forall e :: e in r <==> e in expenses && !(e.id == id && e.owner == owner)
    ensures IdsAscending(expenses) ==> IdsAscending(r)
  {
    if expenses == [] then []
    else
      assert expenses == [expenses[0]] + expenses[1..];
      var rest := DeleteWhere(expenses[1..], id, owner);
      if expenses[0].id == id && expenses[0].owner == owner then rest
      else
        assert IdsAscending(expenses) ==> IdsAscending([expenses[0]] + rest) by {
          if IdsAscending(expenses) {
            IdsAscendingTail(expenses);
            ConsAscending(expenses[0], rest);
          }
        }
        [expenses[0]] + rest
  }

  lemma {:induction false} DeleteWhereNoMatch(expenses: seq<Expense>, id: int, owner: string)
    requires !Owns(expenses, id, owner)
    ensures DeleteWhere(expenses, id, owner) == expenses
  {
    if expenses != [] {
      var tail := expenses[1..];
      assert !Owns(tail, id, owner) by {
        forall m | 0 <= m < |tail| ensures !(tail[m].id == id && tail[m].owner == owner) {
          assert tail[m] == expenses[m + 1];
        }
      }
      DeleteWhereNoMatch(tail, id, owner);
      assert expenses == [expenses[0]] + tail;
    }
  }

  /** The tail of an ascending table is ascending and above its head. */
  lemma IdsAscendingTail(expenses: seq<Expense>)
    requires IdsAscending(expenses) && expenses != []
    ensures IdsAscending(expenses[1..])
    ensures forall x :: x in expenses[1..] ==> expenses[0].id < x.id
  {
    var tail := expenses[1..];
    forall i, j | 0 <= i < j < |tail| ensures tail[i].id < tail[j].id {
      assert tail[i] == expenses[i + 1] && tail[j] == expenses[j + 1];
    }
    forall x | x in tail ensures expenses[0].id < x.id {
      var m :| 0 <= m < |tail| && tail[m] == x;
      assert expenses[m + 1] == x;
    }
  }

  lemma ConsAscending(e: Expense, rest: seq<Expense>)
    requires IdsAscending(rest) && forall x :: x in rest ==> e.id < x.id
    ensures IdsAscending([e] + rest)
  {
    var s := [e] + rest;
    forall i, j | 0 <= i < j < |s| ensures s[i].id < s[j].id {
      assert s[j] == rest[j - 1] && rest[j - 1] in rest;
      if i > 0 {
        assert s[i] == rest[i - 1];
      }
    }
  }

  /** With distinct ids, the delete removes exactly the owned row at `k` and keeps the others in order. */
  lemma {:induction false} DeleteWhereAt(expenses: seq<Expense>, id: int, owner: string, k: nat)
    requires IdsAscending(expenses)
    requires k < |expenses| && expenses[k].id == id && expenses[k].owner == owner
    ensures DeleteWhere(expenses, id, owner) == expenses[..k] + expenses[k + 1..]
  {
    var tail := expenses[1..];
    IdsAscendingTail(expenses);
    if k == 0 {
      forall m | 0 <= m < |tail| ensures tail[m].id != id {
        assert tail[m] in tail;
      }
      DeleteWhereNoMatch(tail, id, owner);
      assert expenses[..0] + expenses[1..] == tail;
    } else {
      assert expenses[0].id < expenses[k].id;
      assert tail[k - 1] == expenses[k];
      DeleteWhereAt(tail, id, owner, k - 1);
      DeleteWhereKeepsHead(expenses, id, owner);
      SpliceTail(expenses, k);
    }
  }

  lemma DeleteWhereKeepsHead(expenses: seq<Expense>, id: int, owner: string)
    requires expenses != [] && !(expenses[0].id == id && expenses[0].owner == owner)
    ensures DeleteWhere(expenses, id, owner) == [expenses[0]] + DeleteWhere(expenses[1..], id, owner)
  {
  }

  lemma SpliceTail<T>(s: seq<T>, k: nat)
    requires 0 < k < |s|
    ensures [s[0]] + (s[1..][..k - 1] + s[1..][k..]) == s[..k] + s[k + 1..]
  {
    assert s[1..][..k - 1] == s[1..k] && s[1..][k..] == s[k + 1..];
    assert s[..k] == [s[0]] + s[1..k];
  }

  /** Another tenant's row is, to the caller, the same as a missing one. */
  lemma OthersRowNotOwned(expenses: seq<Expense>, id: int, owner: string, k: nat)
    requires IdsAscending(expenses)
    requires k < |expenses| && expenses[k].id == id && expenses[k].owner != owner
    ensures !Owns(expenses, id, owner)
  {
  }

  /** A tenant's delete leaves every other tenant's rows as they were. */
  lemma {:induction false} OwnedByDelete(expenses: seq<Expense>, id: int, owner: string, other: string)
    requires other != owner
    ensures OwnedBy(DeleteWhere(expenses, id, owner), other) == OwnedBy(expenses, other)
  {
    if expenses != [] {
      OwnedByDelete(expenses[1..], id, owner, other);
      var rest := DeleteWhere(expenses[1..], id, owner);
      if !(expenses[0].id == id && expenses[0].owner == owner) {
        assert ([expenses[0]] + rest)[1..] == rest;
      }
    }
  }
}
