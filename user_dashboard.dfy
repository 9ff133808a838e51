/** The user dashboard: the user's own reports, the other users' approved
    lost and found items, reporting and editing an item, deleting one, and
    attaching security questions to one. Every change reads the `items`
    table, rewrites it and stores it back together with the `items` view. */
module UserDashboard {
  import opened Common
  import opened Records

  // ---------------------------------------------------------------------
  // Views of the table

  /** The user's own reports: exactly the items reported under the email. */
  function MyItems(store: seq<Item>, email: string): (r: seq<Item>)
    ensures forall x :: x in r <==> x in store && x.reportedBy == email
  {
    Filter(store, ReportedBy(email))
  }

  function ReportedBy(email: string): Item -> bool {
    (x: Item) => x.reportedBy == email
  }

  function IdIsNot(id: int): Item -> bool {
    (x: Item) => x.id != id
  }

  /** An item other users may browse: approved or expected. */
  predicate Published(x: Item) {
    x.status == "approved" || x.status == "expected"
  }

  /** The lost (or found) list: other users' published items of that type. */
  function ListedItems(store: seq<Item>, email: string, kind: string): (r: seq<Item>)
    ensures forall x :: x in r <==> (x in store && x.itemType == kind && Published(x) && x.reportedBy != email)
  {
    Filter(store, (x: Item) => x.itemType == kind && Published(x) && x.reportedBy != email)
  }

  /** The three lists never share an item, and a pending item is listed
      for nobody. */
  lemma ViewsDisjoint(store: seq<Item>, email: string, other: string, x: Item)
    ensures x in MyItems(store, email) ==> x !in ListedItems(store, email, "lost")
    ensures x in MyItems(store, email) ==> x !in ListedItems(store, email, "found")
    ensures !(x in ListedItems(store, email, "lost") && x in ListedItems(store, email, "found"))
    ensures x.status == "pending" ==> x !in ListedItems(store, other, "lost") && x !in ListedItems(store, other, "found")
  {
  }

  /** `isAdminItem`: the item was processed by the account that reported it. */
  predicate IsAdminItem(item: Item) {
    item.adminProcessedBy.Some? && item.adminProcessedBy.value != "" &&
    item.adminProcessedBy.value == item.reportedBy
  }

  /** `getStatusBadgeVariant`: the Bootstrap variant of a status badge. */
  function StatusBadge(status: string): (variant: string)
    ensures variant in {"warning", "success", "danger", "info", "secondary"}
    ensures variant == "secondary" <==> status !in {"pending", "approved", "rejected", "expected"}
  {
    if status == "pending" then "warning"
    else if status == "approved" then "success"
    else if status == "rejected" then "danger"
    else if status == "expected" then "info"
    else "secondary"
  }

  /** Two open statuses never share a badge. */
  lemma BadgeTellsOpenStatusesApart(s: string, t: string)
    requires s in {"pending", "approved", "rejected", "expected"}
    requires StatusBadge(s) == StatusBadge(t)
    ensures s == t
  {
  }

  /** Edit and Delete are disabled on approved and resolved items. */
  predicate Locked(item: Item) {
    item.status == "approved" || item.status == "resolved"
  }

  // ---------------------------------------------------------------------
  // Security questions

  function Blank(id: int): Question {
    Question(id, "", "")
  }

  /** Both the question and the answer are non-blank after trimming. */
  predicate IsFilled(q: Question) {
    !IsBlank(q.question) && !IsBlank(q.answer)
  }

  /** The rows of the report form that count for a found item. */
  function FilledQuestions(qs: seq<Question>): (r: seq<Question>)
    ensures forall q :: q in r <==> q in qs && IsFilled(q)
  {
    Filter(qs, IsFilled)
  }

  /** The found-item check passes exactly when some row is filled in. */
  lemma FoundCheckMeansSomeRowFilled(qs: seq<Question>)
    ensures |FilledQuestions(qs)| > 0 <==> exists i :: 0 <= i < |qs| && IsFilled(qs[i])
  {
    if |FilledQuestions(qs)| > 0 {
      var q := FilledQuestions(qs)[0];
      assert q in FilledQuestions(qs);
    }
    if i :| 0 <= i < |qs| && IsFilled(qs[i]) {
      assert qs[i] in FilledQuestions(qs);
    }
  }

  /** Some row has an empty question or answer: the browser's check of the
      `required` inputs of the report form refuses to submit it. */
  predicate SomeRowEmpty(qs: seq<Question>) {
    exists i :: 0 <= i < |qs| && (qs[i].question == "" || qs[i].answer == "")
  }

  /** Both inputs are non-empty, but one of them is white space only. */
  predicate WhiteSpaceOnly(q: Question) {
    q.question != "" && q.answer != "" && (IsBlank(q.question) || IsBlank(q.answer))
  }

  /** The found-item refusal of `onSubmit` is left for the rows that pass
      the browser's check: some row is non-empty but white space only. */
  lemma {:induction false} FoundRefusalNeedsWhiteSpaceRow(qs: seq<Question>)
    requires |qs| > 0 && !SomeRowEmpty(qs) && |FilledQuestions(qs)| == 0
    ensures exists i :: 0 <= i < |qs| && WhiteSpaceOnly(qs[i])
  {
    assert qs[0] !in FilledQuestions(qs);
    assert qs[0].question != "" && qs[0].answer != "";
  }

  /** `.some(q => !q.question.trim() || !q.answer.trim())` */
  predicate AnyIncomplete(qs: seq<Question>) {
    exists i :: 0 <= i < |qs| && !IsFilled(qs[i])
  }

  /** The rows the report form opens with: the item's questions when it has
      some, otherwise one blank row. */
  function QuestionsFor(item: Option<Item>, blankId: int): (r: seq<Question>)
    ensures |r| > 0
    ensures item.Some? && item.value.securityQuestions.Some? && |item.value.securityQuestions.value| > 0 ==>
      r == item.value.securityQuestions.value
    ensures !(item.Some? && item.value.securityQuestions.Some? && |item.value.securityQuestions.value| > 0) ==>
      r == [Blank(blankId)]
  {
    if item.Some? && item.value.securityQuestions.Some? && |item.value.securityQuestions.value| > 0 then
      item.value.securityQuestions.value
    else [Blank(blankId)]
  }

  /** The question a row edit targets. */
  datatype QuestionField = QuestionText | AnswerText

  /** `questions.map(q => q.id === id ? { ...q, [field]: value } : q)` */
  function ChangeQuestion(qs: seq<Question>, id: int, field: QuestionField, value: string): (r: seq<Question>)
    ensures |r| == |qs|
    ensures forall i :: 0 <= i < |qs| && qs[i].id != id ==> r[i] == qs[i]
    ensures forall i :: 0 <= i < |qs| && qs[i].id == id ==>
      r[i] == if field == QuestionText then qs[i].(question := value) else qs[i].(answer := value)
  {
    Map(qs, (q: Question) =>
      if q.id != id then q
      else if field == QuestionText then q.(question := value)
      else q.(answer := value))
  }

  /** One blank row appended after the others. */
  function AddBlank(qs: seq<Question>, id: int): (r: seq<Question>)
    ensures |r| == |qs| + 1 && r[..|qs|] == qs && r[|qs|] == Blank(id)
  {
    qs + [Blank(id)]
  }

  /** The rows with that id filtered out. */
  function RemoveQuestion(qs: seq<Question>, id: int): (r: seq<Question>)
    ensures forall q :: q in r <==> q in qs && q.id != id
    ensures forall q :: multiset(r)[q] == if q.id != id then multiset(qs)[q] else 0
  {
    FilterCounts(qs, (q: Question) => q.id != id);
    Filter(qs, (q: Question) => q.id != id)
  }

  /** Removing a freshly added row restores the list. */
  lemma RemoveUndoesAdd(qs: seq<Question>, id: int)
    requires forall q :: q in qs ==> q.id != id
    ensures RemoveQuestion(AddBlank(qs, id), id) == qs
  {
    FilterAppend(qs, [Blank(id)], (q: Question) => q.id != id);
    FilterKeepsAll(qs, (q: Question) => q.id != id);
  }

  /** Appends `extra` after the questions of the items with that id (a
      missing list counts as empty); every other item is kept. */
  function AppendQuestions(store: seq<Item>, id: int, extra: seq<Question>): (r: seq<Item>)
    ensures |r| == |store|
    ensures forall i :: 0 <= i < |store| && store[i].id != id ==> r[i] == store[i]
    ensures forall i :: 0 <= i < |store| && store[i].id == id ==>
      r[i] == store[i].(securityQuestions := Some(store[i].securityQuestions.GetOr([]) + extra))
  {
    Map(store, AddTo(id, extra))
  }

  function AddTo(id: int, extra: seq<Question>): Item -> Item {
    (x: Item) => WithQuestions(x, id, extra)
  }

  function WithQuestions(x: Item, id: int, extra: seq<Question>): Item {
    if x.id == id then x.(securityQuestions := Some(x.securityQuestions.GetOr([]) + extra)) else x
  }

  /** Adding questions one call at a time or all in one call gives the same
      table. */
  lemma AppendQuestionsTwice(store: seq<Item>, id: int, a: seq<Question>, b: seq<Question>)
    ensures AppendQuestions(AppendQuestions(store, id, a), id, b) == AppendQuestions(store, id, a + b)
  {
    var once := AppendQuestions(store, id, a);
    var twice := AppendQuestions(once, id, b);
    var both := AppendQuestions(store, id, a + b);
    forall i | 0 <= i < |store| ensures twice[i] == both[i] {
      if store[i].id == id {
        assert store[i].securityQuestions.GetOr([]) + a + b == store[i].securityQuestions.GetOr([]) + (a + b);
      }
    }
  }

  // ---------------------------------------------------------------------
  // Reporting and editing

  /** The values of the report form. */
  datatype ReportData = ReportData(
    itemType: string,
    name: string,
    category: string,
    location: string,
    description: string)

  const TypeRequired := "Please select a type"
  const NameRequired := "Item name is required"
  const CategoryRequired := "Please select a category"
  const LocationRequired := "Location is required"
  const DescriptionRequired := "Description is required"

  /** The `required` rules of the report form, one message per empty field
      in the order of the fields; `handleSubmit` calls `onSubmit` only when
      there is none. */
  function ReportErrors(data: ReportData): (r: seq<string>)
    ensures r == [] <==>
      data.itemType != "" && data.name != "" && data.category != "" &&
      data.location != "" && data.description != ""
    ensures TypeRequired in r <==> data.itemType == ""
    ensures NameRequired in r <==> data.name == ""
    ensures CategoryRequired in r <==> data.category == ""
    ensures LocationRequired in r <==> data.location == ""
    ensures DescriptionRequired in r <==> data.description == ""
  {
    (if data.itemType == "" then [TypeRequired] else []) +
    (if data.name == "" then [NameRequired] else []) +
    (if data.category == "" then [CategoryRequired] else []) +
    (if data.location == "" then [LocationRequired] else []) +
    (if data.description == "" then [DescriptionRequired] else [])
  }

  /** The submission never reaches `onSubmit`: a field is empty, or the item
      is found and a question row has an empty input. */
  predicate Blocked(data: ReportData, rows: seq<Question>) {
    ReportErrors(data) != [] || (data.itemType == "found" && SomeRowEmpty(rows))
  }

  /** The question list a report stores: the form's rows, blank ones
      included, for a found item; none for any other type. */
  function StoredQuestions(data: ReportData, rows: seq<Question>): (r: seq<Question>)
    ensures data.itemType == "found" ==> r == rows
    ensures data.itemType != "found" ==> r == []
  {
    if data.itemType == "found" then rows else []
  }

  /** A new report: the form values, the current user as reporter, status
      pending, both timestamps `now`. */
  function NewItem(id: int, data: ReportData, email: string, now: string, rows: seq<Question>): (n: Item)
    ensures n.id == id && n.reportedBy == email && n.status == "pending"
    ensures n.itemType == data.itemType && n.name == data.name && n.category == data.category
    ensures n.location == data.location && n.description == data.description
    ensures n.createdAt == now && n.updatedAt == now
    ensures n.securityQuestions == Some(StoredQuestions(data, rows)) && n.adminProcessedBy.None?
  {
    Item(id, data.itemType, data.name, data.category, data.location, data.description,
      email, "pending", now, now, Some(StoredQuestions(data, rows)), None)
  }

  /** `{ ...item, ...data, updatedAt, status: 'pending', securityQuestions }`:
      the form values override, the status goes back to pending, and the
      id, reporter, creation time and processing admin are kept. */
  function EditItem(x: Item, data: ReportData, now: string, rows: seq<Question>): (r: Item)
    ensures r.id == x.id && r.reportedBy == x.reportedBy && r.createdAt == x.createdAt
    ensures r.adminProcessedBy == x.adminProcessedBy
    ensures r.itemType == data.itemType && r.name == data.name && r.category == data.category
    ensures r.location == data.location && r.description == data.description
    ensures r.status == "pending" && r.updatedAt == now
    ensures r.securityQuestions == Some(StoredQuestions(data, rows))
  {
    x.(itemType := data.itemType, name := data.name, category := data.category,
       location := data.location, description := data.description, updatedAt := now,
       status := "pending", securityQuestions := Some(StoredQuestions(data, rows)))
  }

  /** The edit rewrite: every item with the edited id is replaced by its
      edited version, every other item is kept, in place. */
  function EditStore(store: seq<Item>, id: int, data: ReportData, now: string, rows: seq<Question>): (r: seq<Item>)
    ensures |r| == |store|
    ensures forall i :: 0 <= i < |store| && store[i].id != id ==> r[i] == store[i]
    ensures forall i :: 0 <= i < |store| && store[i].id == id ==> r[i] == EditItem(store[i], data, now, rows)
  {
    Map(store, Edit(id, data, now, rows))
  }

  function Edit(id: int, data: ReportData, now: string, rows: seq<Question>): Item -> Item {
    (x: Item) => if x.id == id then EditItem(x, data, now, rows) else x
  }

  /** Editing never moves an item into or out of anyone's own list. */
  lemma EditKeepsOwnership(store: seq<Item>, id: int, data: ReportData, now: string, rows: seq<Question>, email: string)
    ensures |MyItems(EditStore(store, id, data, now, rows), email)| == |MyItems(store, email)|
  {
    MapFilterCommute(store, Edit(id, data, now, rows), ReportedBy(email));
  }

  /** Deleting from the table and then taking the user's slice is taking
      the slice and deleting from it. */
  lemma DeleteKeepsView(store: seq<Item>, email: string, id: int)
    ensures Filter(MyItems(store, email), IdIsNot(id)) == MyItems(Filter(store, IdIsNot(id)), email)
  {
    FilterCommutes(store, ReportedBy(email), IdIsNot(id));
  }

  /** Appending questions leaves every item with its reporter, so the
      user's slice of the rewritten table is the rewritten slice. */
  lemma AppendKeepsView(store: seq<Item>, email: string, id: int, extra: seq<Question>)
    ensures AppendQuestions(MyItems(store, email), id, extra) == MyItems(AppendQuestions(store, id, extra), email)
  {
    MapFilterCommute(store, AddTo(id, extra), ReportedBy(email));
  }

  /** A report by the user lands at the end of the user's slice. */
  lemma NewReportKeepsView(store: seq<Item>, email: string, n: Item)
    requires n.reportedBy == email
    ensures MyItems(store + [n], email) == MyItems(store, email) + [n]
  {
    FilterAppend(store, [n], ReportedBy(email));
    assert Filter([n], ReportedBy(email)) == [n] by {
      assert [n][1..] == [];
    }
  }

  /** A report the user just made never carries the administrator mark of
      `isAdminItem`; editing an item or adding questions to it keeps the
      mark as it was. */
  lemma AdminMarkOnlyFromProcessing(x: Item, id: int, data: ReportData, email: string, now: string,
                                    rows: seq<Question>, extra: seq<Question>)
    ensures !IsAdminItem(NewItem(id, data, email, now, rows))
    ensures IsAdminItem(EditItem(x, data, now, rows)) <==> IsAdminItem(x)
    ensures IsAdminItem(AddTo(x.id, extra)(x)) <==> IsAdminItem(x)
  {
  }

  /** A report just made or edited is pending: it can be edited and deleted
      again, and it is listed for nobody until an administrator approves it. */
  lemma SubmittedItemAwaitsReview(x: Item, id: int, data: ReportData, email: string, now: string, rows: seq<Question>)
    ensures !Locked(NewItem(id, data, email, now, rows)) && !Locked(EditItem(x, data, now, rows))
    ensures !Published(NewItem(id, data, email, now, rows)) && !Published(EditItem(x, data, now, rows))
  {
  }

  const FoundNeedsQuestion := "At least one security question is required for found items"
  const QuestionAndAnswerRequired := "Question and answer are required"
  const AllQuestionsRequired := "All questions and answers are required"
  const ItemUpdated := "Item updated successfully"
  const ItemReported := "Item reported successfully"
  const ItemDeleted := "Item deleted successfully"
  const QuestionAdded := "Security question added successfully"
  const QuestionsAdded := "Security questions added successfully"
  const Success := "success"
  const Danger := "danger"

  /** The alert of the dashboard. */
  datatype Message = Message(kind: string, text: string)

  class Dashboard {
    /** the signed-in user's email */
    const userEmail: string
    /** the `items` key of `localStorage` */
    var store: seq<Item>
    /** the `items` state: the user's own reports */
    var items: seq<Item>
    /** the lost and found lists, computed when the page loads */
    var lostItems: seq<Item>
    var foundItems: seq<Item>
    /** the id of the item the report form edits; None for a new report */
    var editingId: Option<int>
    /** the question rows of the report form */
    var formQuestions: seq<Question>
    /** the question rows of the add-questions dialog */
    var newQuestions: seq<Question>
    var message: Message

    /** The own-items view is the user's slice of the table. */
    ghost predicate Valid()
      reads this
    {
      items == MyItems(store, userEmail)
    }

    /** The load effect, with the ids of the two initial blank rows. */
    constructor (stored: seq<Item>, email: string, blankId: int)
      ensures Valid()
      ensures userEmail == email && store == stored
      ensures lostItems == ListedItems(stored, email, "lost")
      ensures foundItems == ListedItems(stored, email, "found")
      ensures editingId.None? && formQuestions == [Blank(blankId)] && newQuestions == [Blank(blankId)]
    {
      userEmail := email;
      store := stored;
      items := MyItems(stored, email);
      lostItems := ListedItems(stored, email, "lost");
      foundItems := ListedItems(stored, email, "found");
      editingId := None;
      formQuestions := [Blank(blankId)];
      newQuestions := [Blank(blankId)];
      message := Message("", "");
    }

    /** `handleShowModal(item)`: opens the report form on an item (or on a
        new report), with the item's questions or one blank row. */
    method OpenForm(item: Option<Item>, blankId: int)
      modifies this
      ensures editingId == (if item.Some? then Some(item.value.id) else None)
      ensures formQuestions == QuestionsFor(item, blankId)
      ensures store == old(store) && items == old(items) && newQuestions == old(newQuestions)
      ensures lostItems == old(lostItems) && foundItems == old(foundItems) && message == old(message)
    {
      editingId := if item.Some? then Some(item.value.id) else None;
      formQuestions := QuestionsFor(item, blankId);
    }

    /** `onSubmit(data)` with a fresh id, the clock reading `now` and the id
        of the blank row the closed form resets to. A found item without a
        filled-in row is refused and nothing is written; otherwise the
        edited item is rewritten in place or the new one appended, and the
        form closes. A form with an empty field never reaches `onSubmit`,
        and nothing changes: react-hook-form checks the five fields, and for
        a found item the browser checks the `required` question and answer
        inputs of every row. */
    method Submit(data: ReportData, newId: int, now: string, blankId: int)
      requires Valid()
      modifies this
      ensures Valid()
      ensures lostItems == old(lostItems) && foundItems == old(foundItems)
      ensures newQuestions == old(newQuestions)
      ensures Blocked(data, old(formQuestions)) ==>
        && store == old(store) && items == old(items)
        && editingId == old(editingId) && formQuestions == old(formQuestions)
        && message == old(message)
      ensures !Blocked(data, old(formQuestions)) && data.itemType == "found" && |FilledQuestions(old(formQuestions))| == 0 ==>
        && store == old(store) && items == old(items)
        && editingId == old(editingId) && formQuestions == old(formQuestions)
        && message == Message(Danger, FoundNeedsQuestion)
      ensures !Blocked(data, old(formQuestions)) && !(data.itemType == "found" && |FilledQuestions(old(formQuestions))| == 0) ==>
        && (old(editingId).Some? ==>
              store == EditStore(old(store), old(editingId).value, data, now, old(formQuestions)))
        && (old(editingId).None? ==>
              store == old(store) + [NewItem(newId, data, userEmail, now, old(formQuestions))])
        && !SomeRowEmpty(StoredQuestions(data, old(formQuestions)))
        && editingId.None? && formQuestions == [Blank(blankId)]
        && message == Message(Success, if old(editingId).Some? then ItemUpdated else ItemReported)
    {
      if Blocked(data, formQuestions) {
        return;
      }
      if data.itemType == "found" && |FilledQuestions(formQuestions)| == 0 {
        message := Message(Danger, FoundNeedsQuestion);
        return;
      }
      if editingId.Some? {
        store := EditStore(store, editingId.value, data, now, formQuestions);
        items := MyItems(store, userEmail);
        message := Message(Success, ItemUpdated);
      } else {
        var n := NewItem(newId, data, userEmail, now, formQuestions);
        NewReportKeepsView(store, userEmail, n);
        store := store + [n];
        items := items + [n];
        message := Message(Success, ItemReported);
      }
      editingId := None;
      formQuestions := [Blank(blankId)];
    }

    /** `handleDelete(itemId)` once confirmed: the items with that id leave
        the table and the view, everything else stays in order. */
    method Delete(itemId: int)
      requires Valid()
      modifies this
      ensures Valid()
      ensures store == Filter(old(store), IdIsNot(itemId))
      ensures items == Filter(old(items), IdIsNot(itemId))
      ensures message == Message(Success, ItemDeleted)
      ensures lostItems == old(lostItems) && foundItems == old(foundItems)
      ensures editingId == old(editingId) && formQuestions == old(formQuestions) && newQuestions == old(newQuestions)
    {
      DeleteKeepsView(store, userEmail, itemId);
      store, items, message := Filter(store, IdIsNot(itemId)), Filter(items, IdIsNot(itemId)), Message(Success, ItemDeleted);
    }

    /** `handleSaveSecurityQuestion()` for the selected item, with the text
        of the two inputs and a fresh id: blank input is refused, otherwise
        the one question is appended to that item in the table and view. */
    method SaveSecurityQuestion(selectedId: int, question: string, answer: string, newId: int)
      requires Valid()
      modifies this
      ensures Valid()
      ensures IsBlank(question) || IsBlank(answer) ==>
        store == old(store) && message == Message(Danger, QuestionAndAnswerRequired)
      ensures !IsBlank(question) && !IsBlank(answer) ==>
        store == AppendQuestions(old(store), selectedId, [Question(newId, question, answer)]) &&
        message == Message(Success, QuestionAdded)
      ensures lostItems == old(lostItems) && foundItems == old(foundItems)
      ensures editingId == old(editingId) && formQuestions == old(formQuestions) && newQuestions == old(newQuestions)
    {
      if IsBlank(question) || IsBlank(answer) {
        message := Message(Danger, QuestionAndAnswerRequired);
        return;
      }
      var extra := [Question(newId, question, answer)];
      var newStore := AppendQuestions(store, selectedId, extra);
      var newItems := AppendQuestions(items, selectedId, extra);
      AppendKeepsView(store, userEmail, selectedId, extra);
      assert newItems == MyItems(newStore, userEmail);
      store, items := newStore, newItems;
      message := Message(Success, QuestionAdded);
    }

    /** `handleSaveSecurityQuestions()`: refused when any row has a blank
        question or answer; otherwise every row is appended to the selected
        item in the table and view and the dialog resets to one blank row. */
    method SaveSecurityQuestions(selectedId: int, blankId: int)
      requires Valid()
      modifies this
      ensures Valid()
      ensures AnyIncomplete(old(newQuestions)) ==>
        && store == old(store) && newQuestions == old(newQuestions)
        && message == Message(Danger, AllQuestionsRequired)
      ensures !AnyIncomplete(old(newQuestions)) ==>
        && store == AppendQuestions(old(store), selectedId, old(newQuestions))
        && newQuestions == [Blank(blankId)]
        && message == Message(Success, QuestionsAdded)
      ensures lostItems == old(lostItems) && foundItems == old(foundItems)
      ensures editingId == old(editingId) && formQuestions == old(formQuestions)
    {
      if AnyIncomplete(newQuestions) {
        message := Message(Danger, AllQuestionsRequired);
        return;
      }
      var extra := newQuestions;
      AppendKeepsView(store, userEmail, selectedId, extra);
      store := AppendQuestions(store, selectedId, extra);
      items := AppendQuestions(items, selectedId, extra);
      newQuestions := [Blank(blankId)];
      message := Message(Success, QuestionsAdded);
    }

    /** `handleSecurityQuestionChange(id, field, value)` on the report form. */
    method ChangeFormQuestion(id: int, field: QuestionField, value: string)
      modifies this
      ensures formQuestions == ChangeQuestion(old(formQuestions), id, field, value)
      ensures store == old(store) && items == old(items) && newQuestions == old(newQuestions)
    {
      formQuestions := ChangeQuestion(formQuestions, id, field, value);
    }

    /** `addSecurityQuestion()` on the report form. */
    method AddFormQuestion(id: int)
      modifies this
      ensures formQuestions == AddBlank(old(formQuestions), id)
      ensures store == old(store) && items == old(items) && newQuestions == old(newQuestions)
    {
      formQuestions := AddBlank(formQuestions, id);
    }

    /** `removeSecurityQuestion(id)` on the report form. */
    method RemoveFormQuestion(id: int)
      modifies this
      ensures formQuestions == RemoveQuestion(old(formQuestions), id)
      ensures store == old(store) && items == old(items) && newQuestions == old(newQuestions)
    {
      formQuestions := RemoveQuestion(formQuestions, id);
    }

    /** `handleNewQuestionChange(id, field, value)` in the dialog. */
    method ChangeNewQuestion(id: int, field: QuestionField, value: string)
      modifies this
      ensures newQuestions == ChangeQuestion(old(newQuestions), id, field, value)
      ensures store == old(store) && items == old(items) && formQuestions == old(formQuestions)
    {
      newQuestions := ChangeQuestion(newQuestions, id, field, value);
    }

    /** `handleAddNewQuestion()` in the dialog. */
    method AddNewQuestion(id: int)
      modifies this
      ensures newQuestions == AddBlank(old(newQuestions), id)
      ensures store == old(store) && items == old(items) && formQuestions == old(formQuestions)
    {
      newQuestions := AddBlank(newQuestions, id);
    }

    /** `handleRemoveNewQuestion(id)` in the dialog. */
    method RemoveNewQuestion(id: int)
      modifies this
      ensures newQuestions == RemoveQuestion(old(newQuestions), id)
      ensures store == old(store) && items == old(items) && formQuestions == old(formQuestions)
    {
      newQuestions := RemoveQuestion(newQuestions, id);
    }
  }
}
