/**
 * The expense tracker's tools over an in-memory store: a `users` table, an
 * `expenses` table and the AUTOINCREMENT counter of the latter.  Registration
 * and key rotation talk to the users table directly; every ledger tool first
 * turns its bearer key into a user id and works only on that user's rows.
 */
module Tracker {
  import opened Wrappers
  import opened Collation
  import opened Email
  import opened Sequences
  import opened Accounts
  import opened Ledger

  /** SQLite's largest rowid; once AUTOINCREMENT has used it, inserts fail with SQLITE_FULL. */
  const MaxRowId: int := 0x7FFF_FFFF_FFFF_FFFF

  /** The smallest value of SQLite's 64-bit INTEGER. */
  const MinInteger: int := -0x8000_0000_0000_0000

  /** A Python int that binds as an SQL parameter: larger ones raise `OverflowError`. */
  predicate FitsInteger(x: int) {
    MinInteger <= x <= MaxRowId
  }

  /**
   * The tools' error replies, one per distinct message of the source, except that
   * the replies of the `except Exception` branches ("Registration error: …",
   * "Database error: …", "Error: …") all become `StorageError`; the tool that
   * replied tells them apart.
   */
  datatype Error =
    | InvalidEmail
    | DuplicateEmail
    | EmailNotFound
    | IncorrectPassword
    | Unauthenticated(reason: AuthError)
    | NotFoundOrNotYours
    | StorageError

  /** Ids ascend in table order and never exceed the largest one assigned, which fits a rowid. */
  ghost predicate CounterValid(expenses: seq<Expense>, lastId: int) {
    && IdsAscending(expenses)
    && 0 <= lastId <= MaxRowId
    && (forall k :: 0 <= k < |expenses| ==> 1 <= expenses[k].id <= lastId)
  }

  /** Every expense belongs to a registered user. */
  ghost predicate OwnersRegistered(expenses: seq<Expense>, users: seq<User>) {
    forall k :: 0 <= k < |expenses| ==> HasUserId(users, expenses[k].owner)
  }

  /** Expenses stay attached to registered users when no user id disappears. */
  lemma OwnersStayRegistered(expenses: seq<Expense>, users: seq<User>, users': seq<User>)
    requires OwnersRegistered(expenses, users)
    requires forall id :: HasUserId(users, id) ==> HasUserId(users', id)
    ensures OwnersRegistered(expenses, users')
  {
  }

  /** Deleting rows keeps the counter's bookkeeping and the owners of the remaining rows. */
  lemma DeleteKeepsCounter(expenses: seq<Expense>, lastId: int, users: seq<User>, id: int, owner: string)
    requires CounterValid(expenses, lastId) && OwnersRegistered(expenses, users)
    ensures CounterValid(DeleteWhere(expenses, id, owner), lastId)
    ensures OwnersRegistered(DeleteWhere(expenses, id, owner), users)
  {
    var d := DeleteWhere(expenses, id, owner);
    forall j | 0 <= j < |d| ensures 1 <= d[j].id <= lastId && HasUserId(users, d[j].owner) {
      assert d[j] in d;
      var m :| 0 <= m < |expenses| && expenses[m] == d[j];
    }
  }

  /** An id some expense carries lies in 1..lastId, so it binds as an INTEGER. */
  lemma OwnedIdFits(expenses: seq<Expense>, lastId: int, id: int, owner: string)
    requires CounterValid(expenses, lastId)
    ensures Owns(expenses, id, owner) ==> FitsInteger(id)
  {
    if Owns(expenses, id, owner) {
      var k :| 0 <= k < |expenses| && expenses[k].id == id && expenses[k].owner == owner;
    }
  }

  datatype Registration = Registration(apiKey: string, userId: string, name: string, email: string)

  datatype Rotation = Rotation(apiKey: string, userId: string)

  datatype Listing = Listing(count: nat, expenses: seq<Row>)

  class ExpenseTracker {
    /** `_hash_password(password, salt)`: PBKDF2-HMAC-SHA256, kept uninterpreted. */
    const hash: (string, string) -> string
    var users: seq<User>
    var expenses: seq<Expense>
    /** The `sqlite_sequence` entry of `expenses`: the largest id ever assigned, 0 before the first. */
    var lastId: int

    /** The table constraints, the AUTOINCREMENT bookkeeping, and no expense without its user. */
    ghost predicate Valid()
      reads this
    {
      UsersValid(users) && CounterValid(expenses, lastId) && OwnersRegistered(expenses, users)
    }

    /** `init_db` on a fresh database: both tables empty. */
    constructor (hash: (string, string) -> string)
      ensures Valid()
      ensures this.hash == hash && users == [] && expenses == [] && lastId == 0
    {
      this.hash := hash;
      users := [];
      expenses := [];
      lastId := 0;
    }

    /**
     * `register_user`.  `idToken`, `apiKey` and `salt` are the values drawn from
     * `secrets`; a clash with an existing `user_id` or `api_key` violates a table
     * constraint and is reported as a storage error.
     */
    method Register(email: string, name: string, password: string, idToken: string, apiKey: string, salt: string)
      returns (r: Result<Registration, Error>)
      requires Valid()
      requires apiKey != ""  // token_urlsafe(32) yields 43 characters
      modifies this
      ensures Valid()
      ensures expenses == old(expenses) && lastId == old(lastId)
      ensures !EmailLooksValid(email) ==> r == Failure(InvalidEmail)
      ensures EmailLooksValid(email) && FindByEmail(old(users), email).Some? ==> r == Failure(DuplicateEmail)
      ensures (EmailLooksValid(email) && FindByEmail(old(users), email).None? &&
               (HasUserId(old(users), "user_" + idToken) || FindByKey(old(users), apiKey).Some?)) ==>
              r == Failure(StorageError)
      ensures r.Failure? ==> users == old(users)
      ensures (EmailLooksValid(email) && FindByEmail(old(users), email).None? &&
               !HasUserId(old(users), "user_" + idToken) && FindByKey(old(users), apiKey).None?) ==> r.Success?
      ensures r.Success? ==>
        && r.value == Registration(apiKey, "user_" + idToken, name, Lower(email))
        && users == old(users) + [User("user_" + idToken, apiKey, Lower(email), name, hash(password, salt), salt)]
        && Authenticate(users, apiKey) == Success("user_" + idToken)
    {
      if !EmailLooksValid(email) {
        return Failure(InvalidEmail);
      }
      if FindByEmail(users, email).Some? {
        return Failure(DuplicateEmail);
      }
      var userId := "user_" + idToken;
      var passwordHash := hash(password, salt);
      var stored := Lower(email);
      if HasUserId(users, userId) || FindByKey(users, apiKey).Some? {
        return Failure(StorageError);
      }
      // under ASCII folding the UNIQUE constraint on `email` cannot fire after the case-insensitive check
      StoredEmailFree(users, email);
      InsertRow(User(userId, apiKey, stored, name, passwordHash, salt));
      r := Success(Registration(apiKey, userId, name, stored));
    }

    /** The `INSERT INTO users` of a row that meets the table's constraints. */
    method InsertRow(u: User)
      requires Valid()
      requires u.apiKey != "" && IsLower(u.email)
      requires !HasUserId(users, u.id) && FindByKey(users, u.apiKey).None? && !HasEmail(users, u.email)
      modifies this
      ensures Valid()
      ensures users == old(users) + [u] && expenses == old(expenses) && lastId == old(lastId)
      ensures Authenticate(users, u.apiKey) == Success(u.id)
    {
      InsertUser(users, u);
      OwnersStayRegistered(expenses, users, users + [u]);
      KeyAuthenticates(users + [u], |users|);
      users := users + [u];
    }

    /**
     * `regenerate_api_key`: find the user by email ignoring case, check the password
     * against the stored hash and salt, then replace that user's key with `newKey`.
     */
    method RegenerateApiKey(email: string, password: string, newKey: string) returns (r: Result<Rotation, Error>)
      requires Valid()
      requires newKey != ""  // token_urlsafe(32) yields 43 characters
      modifies this
      ensures Valid()
      ensures expenses == old(expenses) && lastId == old(lastId)
      ensures FindByEmail(old(users), email).None? ==> r == Failure(EmailNotFound)
      ensures FindByEmail(old(users), email).Some? ==>
        var u := old(users)[FindByEmail(old(users), email).value];
        && (hash(password, u.salt) != u.passwordHash ==> r == Failure(IncorrectPassword))
        && ((hash(password, u.salt) == u.passwordHash && FindByKey(old(users), newKey).Some? &&
             old(users)[FindByKey(old(users), newKey).value].id != u.id) ==> r == Failure(StorageError))
        && ((hash(password, u.salt) == u.passwordHash && (FindByKey(old(users), newKey).None? ||
             old(users)[FindByKey(old(users), newKey).value].id == u.id)) ==> r.Success?)
      ensures r.Failure? ==> users == old(users)
      ensures r.Success? ==>
        var i := FindByEmail(old(users), email).value;
        && r.value == Rotation(newKey, old(users)[i].id)
        && users == old(users)[i := old(users)[i].(apiKey := newKey)]
        && Authenticate(users, newKey) == Success(old(users)[i].id)
        && (old(users)[i].apiKey != newKey ==> Authenticate(users, old(users)[i].apiKey) == Failure(KeyInvalid))
    {
      var found := FindByEmail(users, email);
      if found.None? {
        return Failure(EmailNotFound);
      }
      var i := found.value;
      var u := users[i];
      if hash(password, u.salt) != u.passwordHash {
        return Failure(IncorrectPassword);
      }
      var holder := FindByKey(users, newKey);
      if holder.Some? && users[holder.value].id != u.id {
        return Failure(StorageError);
      }
      assert holder.Some? ==> holder.value == i;
      ReplaceKey(users, i, newKey);
      OwnersStayRegistered(expenses, users, users[i := u.(apiKey := newKey)]);
      users := users[i := u.(apiKey := newKey)];
      r := Success(Rotation(newKey, u.id));
    }

    /** `add_expense`: one new row owned by the caller, with the next AUTOINCREMENT id. */
    method AddExpense(date: string, amount: int, category: string, apiKey: string, subcategory: string := "", note: string := "")
      returns (r: Result<int, Error>)
      requires Valid()
      modifies this
      ensures Valid()
      ensures users == old(users)
      ensures Authenticate(users, apiKey).Failure? ==>
        r == Failure(Unauthenticated(Authenticate(users, apiKey).error))
      ensures Authenticate(users, apiKey).Success? && old(lastId) == MaxRowId ==> r == Failure(StorageError)
      ensures r.Failure? ==> expenses == old(expenses) && lastId == old(lastId)
      ensures Authenticate(users, apiKey).Success? && old(lastId) < MaxRowId ==>
        && r == Success(old(lastId) + 1)
        && expenses == old(expenses) + [Expense(r.value, Authenticate(users, apiKey).value, date, amount, category, subcategory, note)]
        && lastId == r.value
      ensures r.Success? ==> forall k :: 0 <= k < |old(expenses)| ==> old(expenses)[k].id < r.value
    {
      var auth := Authenticate(users, apiKey);
      if auth.Failure? {
        return Failure(Unauthenticated(auth.error));
      }
      if lastId == MaxRowId {
        return Failure(StorageError);
      }
      var id := lastId + 1;
      assert HasUserId(users, auth.value);
      expenses := expenses + [Expense(id, auth.value, date, amount, category, subcategory, note)];
      lastId := id;
      r := Success(id);
    }

    /** `list_expenses`: the caller's rows dated within the range, newest first. */
    function ListExpenses(startDate: string, endDate: string, apiKey: string): (r: Result<Listing, Error>)
      reads this
      ensures Authenticate(users, apiKey).Failure? ==>
        r == Failure(Unauthenticated(Authenticate(users, apiKey).error))
      ensures Authenticate(users, apiKey).Success? ==>
        var owner := Authenticate(users, apiKey).value;
        && r.Success?
        && r.value.count == |r.value.expenses|
        && multiset(r.value.expenses) == multiset(Select(expenses, owner, startDate, endDate))
        && SortedBy(r.value.expenses, NewestFirst)
    {
      match Authenticate(users, apiKey)
      case Failure(e) => Failure(Unauthenticated(e))
      case Success(owner) =>
        var rows := ListRows(expenses, owner, startDate, endDate);
        Success(Listing(|rows|, rows))
    }

    /** `summarize`: the caller's rows in the range, optionally in one category, grouped by category. */
    function Summarize(startDate: string, endDate: string, apiKey: string, category: Option<string> := None): (r: Result<Summary, Error>)
      reads this
      ensures Authenticate(users, apiKey).Failure? ==>
        r == Failure(Unauthenticated(Authenticate(users, apiKey).error))
      ensures Authenticate(users, apiKey).Success? ==>
        var matching := WithCategory(Select(expenses, Authenticate(users, apiKey).value, startDate, endDate), category);
        && r.Success?
        && GroupsOf(r.value.summary, matching)
        && SortedBy(r.value.summary, LargestFirst)
        && r.value.totalAmount == SumBy(r.value.summary, GroupTotal)
        && r.value.totalAmount == SumBy(matching, RowAmount)
    {
      match Authenticate(users, apiKey)
      case Failure(e) => Failure(Unauthenticated(e))
      case Success(owner) => Success(SummarizeRows(expenses, owner, startDate, endDate, category))
    }

    /** `delete_expense`: remove the row with this id, if the caller owns it. */
    method DeleteExpense(expenseId: int, apiKey: string) returns (r: Result<int, Error>)
      requires Valid()
      modifies this
      ensures Valid()
      ensures users == old(users) && lastId == old(lastId)
      ensures Authenticate(users, apiKey).Failure? ==>
        r == Failure(Unauthenticated(Authenticate(users, apiKey).error))
      ensures Authenticate(users, apiKey).Success? && !FitsInteger(expenseId) ==> r == Failure(StorageError)
      ensures Authenticate(users, apiKey).Success? && FitsInteger(expenseId) &&
              !Owns(old(expenses), expenseId, Authenticate(users, apiKey).value) ==>
        r == Failure(NotFoundOrNotYours)
      ensures Authenticate(users, apiKey).Success? && Owns(old(expenses), expenseId, Authenticate(users, apiKey).value) ==>
        r.Success?
      ensures r.Failure? ==> expenses == old(expenses)
      ensures r.Success? ==>
        && r.value == expenseId
        && (exists k :: 0 <= k < |old(expenses)| && old(expenses)[k].id == expenseId &&
                        old(expenses)[k].owner == Authenticate(users, apiKey).value &&
                        expenses == old(expenses)[..k] + old(expenses)[k + 1..])
        && !Owns(expenses, expenseId, Authenticate(users, apiKey).value)
    {
      var auth := Authenticate(users, apiKey);
      if auth.Failure? {
        return Failure(Unauthenticated(auth.error));
      }
      if !FitsInteger(expenseId) {
        OwnedIdFits(expenses, lastId, expenseId, auth.value);
        return Failure(StorageError);
      }
      if !Owns(expenses, expenseId, auth.value) {
        return Failure(NotFoundOrNotYours);
      }
      var k :| 0 <= k < |expenses| && expenses[k].id == expenseId && expenses[k].owner == auth.value;
      DeleteWhereAt(expenses, expenseId, auth.value, k);
      DeleteKeepsCounter(expenses, lastId, users, expenseId, auth.value);
      expenses := DeleteWhere(expenses, expenseId, auth.value);
      r := Success(expenseId);
    }
  }

  /** Two rows of one user in the range, the second dated strictly later, are listed later first. */
  lemma ListingOfTwo(tracker: ExpenseTracker, key: string, startDate: string, endDate: string, e1: Expense, e2: Expense)
    requires Authenticate(tracker.users, key) == Success(e1.owner) && e2.owner == e1.owner
    requires tracker.expenses == [e1, e2]
    requires InRange(e1.date, startDate, endDate) && InRange(e2.date, startDate, endDate)
    requires !LexLe(e2.date, e1.date)
    ensures tracker.ListExpenses(startDate, endDate, key) == Success(Listing(2, [RowOf(e2), RowOf(e1)]))
  {
    var listing := tracker.ListExpenses(startDate, endDate, key);
    assert Select(tracker.expenses, e1.owner, startDate, endDate) == [RowOf(e1), RowOf(e2)];
    var rows := listing.value.expenses;
    assert multiset(rows) == multiset{RowOf(e1), RowOf(e2)};
    LexLeTotal(e2.date, e1.date);
    assert rows == [RowOf(e2), RowOf(e1)];
  }

  /** Two rows of one user in the range, in different categories, give two one-row lines and their sum. */
  lemma SummaryOfTwo(tracker: ExpenseTracker, key: string, startDate: string, endDate: string, e1: Expense, e2: Expense)
    requires Authenticate(tracker.users, key) == Success(e1.owner) && e2.owner == e1.owner
    requires tracker.expenses == [e1, e2]
    requires InRange(e1.date, startDate, endDate) && InRange(e2.date, startDate, endDate)
    requires e1.category != e2.category
    ensures var summary := tracker.Summarize(startDate, endDate, key);
      && summary.Success?
      && summary.value.totalAmount == e1.amount + e2.amount
      && Group(e1.category, e1.amount, 1) in summary.value.summary
      && Group(e2.category, e2.amount, 1) in summary.value.summary
  {
    var matching := [RowOf(e1), RowOf(e2)];
    assert Select(tracker.expenses, e1.owner, startDate, endDate) == matching;
    assert SumBy(matching, RowAmount) == e1.amount + e2.amount by {
      assert matching[1..] == [RowOf(e2)] && [RowOf(e2)][1..] == [];
      assert SumBy([RowOf(e2)], RowAmount) == e2.amount;
    }
    var summary := tracker.Summarize(startDate, endDate, key);
    GroupsOfTwo(summary.value.summary, RowOf(e1), RowOf(e2));
  }

  /** The grouping of two rows in different categories is one single-row line for each. */
  lemma GroupsOfTwo(gs: seq<Group>, r1: Row, r2: Row)
    requires GroupsOf(gs, [r1, r2]) && r1.category != r2.category
    ensures Group(r1.category, r1.amount, 1) in gs && Group(r2.category, r2.amount, 1) in gs
  {
    var rows := [r1, r2];
    assert rows[1..] == [r2] && [r2][1..] == [];
    assert CategorySum([r2], r1.category) == 0 && CategoryCount([r2], r1.category) == 0;
    assert CategorySum([r2], r2.category) == r2.amount && CategoryCount([r2], r2.category) == 1;
    var g1 :| g1 in gs && g1.category == rows[0].category;
    var g2 :| g2 in gs && g2.category == rows[1].category;
    assert GroupFits(g1, rows) && GroupFits(g2, rows);
  }

  /** A first registration succeeds and its key authenticates; a second one with the same address fails. */
  method DuplicateRegistrationScenario(tracker: ExpenseTracker, email: string, name: string, password: string,
                                       idToken: string, key1: string, key2: string, salt: string)
    requires tracker.Valid() && tracker.users == []
    requires EmailLooksValid(email) && key1 != "" && key2 != ""
    modifies tracker
  {
    var reg := tracker.Register(email, name, password, idToken, key1, salt);
    assert reg.Success?;
    assert Authenticate(tracker.users, key1) == Success("user_" + idToken);
    var again := tracker.Register(email, name, password, idToken + "2", key2, salt);
    assert Lower(Lower(email)) == Lower(email);
    assert again == Failure(DuplicateEmail);
  }

  /**
   * A rotation with a wrong password changes nothing; one with the right password
   * retires the first key in favour of the second.
   */
  method RotationScenario(tracker: ExpenseTracker, email: string, name: string, password: string, wrong: string,
                          idToken: string, key1: string, key2: string, salt: string)
    requires tracker.Valid() && tracker.users == []
    requires EmailLooksValid(email) && key1 != "" && key2 != "" && key1 != key2
    requires tracker.hash(wrong, salt) != tracker.hash(password, salt)
    modifies tracker
  {
    var reg := tracker.Register(email, name, password, idToken, key1, salt);
    assert reg.Success?;
    var u := User("user_" + idToken, key1, Lower(email), name, tracker.hash(password, salt), salt);
    assert tracker.users == [u];
    assert Lower(Lower(email)) == Lower(email);
    assert FindByEmail(tracker.users, email) == Some(0) && FindByKey(tracker.users, key2) == None;
    var bad := tracker.RegenerateApiKey(email, wrong, key2);
    assert bad == Failure(IncorrectPassword);
    var rot := tracker.RegenerateApiKey(email, password, key2);
    assert rot == Success(Rotation(key2, "user_" + idToken));
    assert Authenticate(tracker.users, key1) == Failure(KeyInvalid);
    assert Authenticate(tracker.users, key2) == Success("user_" + idToken);
  }

  /**
   * The two-expense walkthrough, amounts in cents: two expenses of one user dated
   * within a range, the second strictly later, then the listing and the summary.
   */
  method TwoExpensesScenario(tracker: ExpenseTracker, key: string, startDate: string, endDate: string, early: string, late: string)
    requires tracker.Valid() && tracker.expenses == [] && tracker.lastId == 0
    requires Authenticate(tracker.users, key).Success?
    requires InRange(early, startDate, endDate) && InRange(late, startDate, endDate) && !LexLe(late, early)
    modifies tracker
  {
    var food := tracker.AddExpense(early, 4550, "Food & Dining", key);
    var ride := tracker.AddExpense(late, 1200, "Transportation", key);
    assert food == Success(1) && ride == Success(2);
    var owner := Authenticate(tracker.users, key).value;
    var e1 := Expense(1, owner, early, 4550, "Food & Dining", "", "");
    var e2 := Expense(2, owner, late, 1200, "Transportation", "", "");
    assert tracker.expenses == [e1, e2];
    ListingOfTwo(tracker, key, startDate, endDate, e1, e2);
    assert |"Food & Dining"| != |"Transportation"|;
    SummaryOfTwo(tracker, key, startDate, endDate, e1, e2);
    assert tracker.Summarize(startDate, endDate, key).value.totalAmount == 5750;
  }

  /** Deleting an owned expense succeeds once; repeating the same delete finds nothing. */
  method DeleteTwiceScenario(tracker: ExpenseTracker, key: string, expenseId: int)
    requires tracker.Valid()
    requires Authenticate(tracker.users, key).Success?
    requires Owns(tracker.expenses, expenseId, Authenticate(tracker.users, key).value)
    modifies tracker
  {
    var first := tracker.DeleteExpense(expenseId, key);
    assert first == Success(expenseId);
    var second := tracker.DeleteExpense(expenseId, key);
    assert second == Failure(NotFoundOrNotYours);
  }
}
