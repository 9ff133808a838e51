/** The administrator's dashboard: the users table (activate/deactivate),
    the moderation queue of pending items (approve/reject) and the pool of
    security questions (add, activate/deactivate, delete). Each handler
    rewrites a `localStorage` table with a map or a filter and replaces
    the list the page shows. */
module AdminDashboard {
  import opened Common
  import opened Records
  import opened AuthContext

  /** A record of the `securityQuestions` table. */
  datatype PoolQuestion = PoolQuestion(id: int, text: string, active: bool, createdAt: string)

  // ---------------------------------------------------------------------
  // The two views the page loads

  function NotDefaultAdmin(): User -> bool {
    (u: User) => u.username != "admin"
  }

  function IsPending(): Item -> bool {
    (x: Item) => x.status == "pending"
  }

  /** The users tab: every stored user except the one named "admin", in
      table order. */
  function NonAdminUsers(users: seq<User>): (r: seq<User>)
    ensures forall u :: u in r <==> u in users && u.username != "admin"
  {
    Filter(users, NotDefaultAdmin())
  }

  /** The moderation queue: the stored items whose status is "pending", in
      table order. */
  function PendingItems(items: seq<Item>): (r: seq<Item>)
    ensures forall x :: x in r <==> x in items && x.status == "pending"
  {
    Filter(items, IsPending())
  }

  // ---------------------------------------------------------------------
  // Users

  function FlipActive(id: int): User -> User {
    (u: User) => if u.id == id then u.(isActive := !u.isActive) else u
  }

  /** `handleUserStatus(userId)` on one list: the records with that id have
      their active flag flipped, all other records and fields are kept, in
      place. */
  function ToggleActive(users: seq<User>, id: int): (r: seq<User>)
    ensures |r| == |users|
    ensures forall j :: 0 <= j < |users| ==>
      r[j].(isActive := users[j].isActive) == users[j] &&
      (r[j].isActive <==> (users[j].isActive != (users[j].id == id)))
  {
    Map(users, FlipActive(id))
  }

  /** Toggling the same user twice restores the table. */
  lemma ToggleActiveTwice(users: seq<User>, id: int)
    ensures ToggleActive(ToggleActive(users, id), id) == users
  {
    var r := ToggleActive(ToggleActive(users, id), id);
    assert forall j :: 0 <= j < |users| ==> r[j] == users[j];
  }

  /** Toggling the page's list gives the list the page would compute from
      the toggled table: the toggle never changes a username. */
  lemma ToggleKeepsUsersView(users: seq<User>, id: int)
    ensures NonAdminUsers(ToggleActive(users, id)) == ToggleActive(NonAdminUsers(users), id)
  {
    MapFilterCommute(users, FlipActive(id), NotDefaultAdmin());
  }

  /** Deactivating the user a login would find makes that login fail with
      the deactivation error, whatever the password. */
  lemma {:induction false} DeactivatedUserCannotSignIn(users: seq<User>, email: string, password: string, i: nat)
    requires i < |users| && FindByEmail(users, email) == Some(i) && users[i].isActive
    ensures Authenticate(ToggleActive(users, users[i].id), email, password) == Err(AccountDeactivated)
  {
    var r := ToggleActive(users, users[i].id);
    assert r[i].email == email && !r[i].isActive;
    assert forall j :: 0 <= j < i ==> r[j].email == users[j].email;
    assert FirstWithEmail(r, email, i);
  }

  /** Reactivating a deactivated user lets that user's correct password
      through again. */
  lemma {:induction false} ReactivatedUserCanSignIn(users: seq<User>, email: string, i: nat)
    requires i < |users| && FindByEmail(users, email) == Some(i) && !users[i].isActive
    ensures Authenticate(ToggleActive(users, users[i].id), email, users[i].password) == Ok(i)
  {
    var r := ToggleActive(users, users[i].id);
    assert r[i].email == email && r[i].isActive && r[i].password == users[i].password;
    assert forall j :: 0 <= j < i ==> r[j].email == users[j].email;
    assert FirstWithEmail(r, email, i);
  }

  // ---------------------------------------------------------------------
  // Moderation

  /** The two buttons of a pending row. */
  datatype Decision = Approve | Reject

  /** The status each button passes to `handleItemStatus`. */
  function StatusOf(d: Decision): (s: string)
    ensures s != "pending"
  {
    match d
    case Approve => "approved"
    case Reject => "rejected"
  }

  function SetStatusOf(id: int, status: string): Item -> Item {
    (x: Item) => if x.id == id then x.(status := status) else x
  }

  function IdIsNot(id: int): Item -> bool {
    (x: Item) => x.id != id
  }

  /** `handleItemStatus(itemId, status)` on the table: the items with that
      id take the new status, whatever their current one; every other item
      and every other field is kept, in place. */
  function WithStatus(items: seq<Item>, id: int, status: string): (r: seq<Item>)
    ensures |r| == |items|
    ensures forall j :: 0 <= j < |items| ==>
      r[j].(status := items[j].status) == items[j] &&
      r[j].status == (if items[j].id == id then status else items[j].status)
  {
    Map(items, SetStatusOf(id, status))
  }

  /** Setting any status other than "pending" takes the item out of the
      moderation queue and leaves the other pending items in their order:
      the page's own update of the queue is the queue of the new table. */
  lemma {:induction false} ModerationLeavesPendingView(items: seq<Item>, id: int, status: string)
    requires status != "pending"
    ensures PendingItems(WithStatus(items, id, status)) == Filter(PendingItems(items), IdIsNot(id))
  {
    if items != [] {
      var f := SetStatusOf(id, status);
      var m := Map(items, f);
      assert m[1..] == Map(items[1..], f);
      ModerationLeavesPendingView(items[1..], id, status);
      var head := if IsPending()(items[0]) then [items[0]] else [];
      FilterAppend(head, PendingItems(items[1..]), IdIsNot(id));
      assert Filter(head, IdIsNot(id)) == if IsPending()(f(items[0])) then [f(items[0])] else [];
    }
  }

  // ---------------------------------------------------------------------
  // The security-question pool

  const EmptyQuestion := "Question text cannot be empty"

  /** `handleAddQuestion` on the pool: text that is blank once trimmed is
      refused; otherwise exactly one active record, with the text as typed,
      is appended after the existing ones. */
  function AddedQuestion(qs: seq<PoolQuestion>, text: string, id: int, now: string): (r: Result<seq<PoolQuestion>, string>)
    ensures r.Err? <==> IsBlank(text)
    ensures r.Err? ==> r.error == EmptyQuestion
    ensures r.Ok? ==> |r.value| == |qs| + 1 && r.value[..|qs|] == qs
    ensures r.Ok? ==> r.value[|qs|] == PoolQuestion(id, text, true, now)
  {
    TrimEmptyIffBlank(text);
    if Trim(text) == "" then Err(EmptyQuestion)
    else Ok(qs + [PoolQuestion(id, text, true, now)])
  }

  function FlipQuestion(id: int): PoolQuestion -> PoolQuestion {
    (q: PoolQuestion) => if q.id == id then q.(active := !q.active) else q
  }

  /** `handleQuestionStatus(questionId)`: the records with that id have
      their active flag flipped; all other records and fields are kept, in
      place. */
  function ToggleQuestion(qs: seq<PoolQuestion>, id: int): (r: seq<PoolQuestion>)
    ensures |r| == |qs|
    ensures forall j :: 0 <= j < |qs| ==>
      r[j].(active := qs[j].active) == qs[j] &&
      (r[j].active <==> (qs[j].active != (qs[j].id == id)))
  {
    Map(qs, FlipQuestion(id))
  }

  /** Toggling the same question twice restores the pool. */
  lemma ToggleQuestionTwice(qs: seq<PoolQuestion>, id: int)
    ensures ToggleQuestion(ToggleQuestion(qs, id), id) == qs
  {
    var r := ToggleQuestion(ToggleQuestion(qs, id), id);
    assert forall j :: 0 <= j < |qs| ==> r[j] == qs[j];
  }

  function QuestionIdIsNot(id: int): PoolQuestion -> bool {
    (q: PoolQuestion) => q.id != id
  }

  /** `handleDeleteQuestion(questionId)`: every record with that id is
      removed, every other one is kept as often as it occurred. */
  function WithoutQuestion(qs: seq<PoolQuestion>, id: int): (r: seq<PoolQuestion>)
    ensures forall q :: q in r <==> q in qs && q.id != id
  {
    Filter(qs, QuestionIdIsNot(id))
  }

  /** Deleting a question keeps every other record exactly as often as it
      occurred; deleting an id no record carries changes nothing. */
  lemma DeleteKeepsOthers(qs: seq<PoolQuestion>, id: int)
    ensures forall q :: multiset(WithoutQuestion(qs, id))[q] == if q.id != id then multiset(qs)[q] else 0
    ensures (forall q :: q in qs ==> q.id != id) ==> WithoutQuestion(qs, id) == qs
  {
    FilterCounts(qs, QuestionIdIsNot(id));
    if forall q :: q in qs ==> q.id != id {
      FilterKeepsAll(qs, QuestionIdIsNot(id));
    }
  }

  /** A question added and then deleted by its (fresh) id leaves the pool
      as it was. */
  lemma {:induction false} DeleteUndoesAdd(qs: seq<PoolQuestion>, text: string, id: int, now: string)
    requires !IsBlank(text)
    requires forall q :: q in qs ==> q.id != id
    ensures WithoutQuestion(AddedQuestion(qs, text, id, now).value, id) == qs
  {
    var added := AddedQuestion(qs, text, id, now).value;
    assert added == qs + [PoolQuestion(id, text, true, now)];
    FilterAppend(qs, [PoolQuestion(id, text, true, now)], QuestionIdIsNot(id));
    FilterKeepsAll(qs, QuestionIdIsNot(id));
  }

  // ---------------------------------------------------------------------
  // The page

  const UserStatusUpdated := "User status updated successfully"
  const QuestionAdded := "Security question added successfully"
  const QuestionStatusUpdated := "Question status updated successfully"
  const QuestionDeleted := "Question deleted successfully"

  /** The success banner of a moderation decision. */
  function ModeratedMessage(d: Decision): string {
    "Item " + StatusOf(d) + " successfully"
  }

  class Dashboard {
    /** the `users`, `items` and `securityQuestions` keys of `localStorage` */
    var storedUsers: seq<User>
    var storedItems: seq<Item>
    var storedQuestions: seq<PoolQuestion>
    /** the three lists the page shows */
    var users: seq<User>
    var items: seq<Item>
    var questions: seq<PoolQuestion>
    var error: Option<string>
    var successMessage: string

    /** Each list the page shows is the one it would load from the tables. */
    ghost predicate Valid()
      reads this
    {
      && users == NonAdminUsers(storedUsers)
      && items == PendingItems(storedItems)
      && questions == storedQuestions
    }

    /** The load effect of the page. */
    constructor (u: seq<User>, it: seq<Item>, qs: seq<PoolQuestion>)
      ensures Valid()
      ensures storedUsers == u && storedItems == it && storedQuestions == qs
      ensures error.None? && successMessage == ""
    {
      storedUsers, storedItems, storedQuestions := u, it, qs;
      users := NonAdminUsers(u);
      items := PendingItems(it);
      questions := qs;
      error, successMessage := None, "";
    }

    /** The Activate/Deactivate button of a user row: both the page's list
        and the table are toggled, and the list stays the table's view. */
    method ToggleUserStatus(userId: int)
      requires Valid()
      modifies this
      ensures Valid()
      ensures storedUsers == ToggleActive(old(storedUsers), userId)
      ensures users == ToggleActive(old(users), userId)
      ensures successMessage == UserStatusUpdated
      ensures storedItems == old(storedItems) && storedQuestions == old(storedQuestions)
      ensures items == old(items) && questions == old(questions) && error == old(error)
    {
      ToggleKeepsUsersView(storedUsers, userId);
      users := ToggleActive(users, userId);
      storedUsers := ToggleActive(storedUsers, userId);
      successMessage := UserStatusUpdated;
    }

    /** The Approve/Reject buttons of a pending row: the table takes the
        new status and the row leaves the queue, which stays the table's
        view. */
    method Moderate(itemId: int, d: Decision)
      requires Valid()
      modifies this
      ensures Valid()
      ensures storedItems == WithStatus(old(storedItems), itemId, StatusOf(d))
      ensures items == Filter(old(items), IdIsNot(itemId))
      ensures successMessage == ModeratedMessage(d)
      ensures storedUsers == old(storedUsers) && storedQuestions == old(storedQuestions)
      ensures users == old(users) && questions == old(questions) && error == old(error)
    {
      ModerationLeavesPendingView(storedItems, itemId, StatusOf(d));
      storedItems := WithStatus(storedItems, itemId, StatusOf(d));
      items := Filter(items, IdIsNot(itemId));
      successMessage := ModeratedMessage(d);
    }

    /** Submitting the add-question dialog with the typed text, a fresh id
        and the clock reading: blank text only sets the error; otherwise the
        question is appended to the pool and to the list. */
    method AddQuestion(text: string, id: int, now: string)
      requires Valid()
      modifies this
      ensures Valid()
      ensures var r := AddedQuestion(old(storedQuestions), text, id, now);
        && (r.Err? ==> error == Some(r.error) && storedQuestions == old(storedQuestions) && successMessage == old(successMessage))
        && (r.Ok? ==> storedQuestions == r.value && successMessage == QuestionAdded && error == old(error))
      ensures storedUsers == old(storedUsers) && storedItems == old(storedItems)
      ensures users == old(users) && items == old(items)
    {
      var r := AddedQuestion(storedQuestions, text, id, now);
      match r
      case Err(e) =>
        error := Some(e);
      case Ok(qs) =>
        storedQuestions, questions, successMessage := qs, qs, QuestionAdded;
    }

    /** The Activate/Deactivate button of a question row. */
    method ToggleQuestionStatus(questionId: int)
      requires Valid()
      modifies this
      ensures Valid()
      ensures storedQuestions == ToggleQuestion(old(storedQuestions), questionId)
      ensures successMessage == QuestionStatusUpdated
      ensures storedUsers == old(storedUsers) && storedItems == old(storedItems)
      ensures users == old(users) && items == old(items) && error == old(error)
    {
      questions := ToggleQuestion(questions, questionId);
      storedQuestions := questions;
      successMessage := QuestionStatusUpdated;
    }

    /** The Delete button of a question row. */
    method DeleteQuestion(questionId: int)
      requires Valid()
      modifies this
      ensures Valid()
      ensures storedQuestions == WithoutQuestion(old(storedQuestions), questionId)
      ensures successMessage == QuestionDeleted
      ensures storedUsers == old(storedUsers) && storedItems == old(storedItems)
      ensures users == old(users) && items == old(items) && error == old(error)
    {
      questions := WithoutQuestion(questions, questionId);
      storedQuestions := questions;
      successMessage := QuestionDeleted;
    }
  }
}
