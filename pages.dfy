/** The public home page: the search/category/tab filter over the items the
    server returns, the claim form and its payload, the claim button and
    the placeholder image of a card. */
module HomePage {
  import opened Common
  import opened Records

  /** The search box, the category select and the active tab. */
  datatype Filters = Filters(searchTerm: string, category: string, tab: string)

  /** `field?.toLowerCase().includes(term)`: a missing field never matches. */
  predicate FieldIncludes(field: Option<string>, term: string) {
    field.Some? && Includes(Lower(field.value), term)
  }

  /** The lowercased term occurs in the lowercased name, description or
      location. */
  predicate MatchesSearch(item: RestItem, searchTerm: string) {
    var t := Lower(searchTerm);
    FieldIncludes(item.itemName, t) || FieldIncludes(item.itemDescription, t) ||
    FieldIncludes(item.location, t)
  }

  /** "all", or the category equals the selected one ignoring case. */
  predicate MatchesCategory(item: RestItem, category: string) {
    category == "all" || LowerOpt(item.category) == Some(Lower(category))
  }

  /** "all"; for "claimed" the lowercased status is "claimed"; for any
      other tab the lowercased report type equals the tab as it is. */
  predicate MatchesTab(item: RestItem, tab: string) {
    tab == "all" ||
    if tab == "claimed" then LowerOpt(item.status) == Some("claimed")
    else LowerOpt(item.reportType) == Some(tab)
  }

  predicate Passes(item: RestItem, f: Filters) {
    MatchesSearch(item, f.searchTerm) && MatchesCategory(item, f.category) && MatchesTab(item, f.tab)
  }

  /** `getFilteredItems()`: the items that pass all three tests, each as
      often as in the input, in their input order. */
  function FilteredItems(items: seq<RestItem>, f: Filters): (r: seq<RestItem>)
    ensures |r| <= |items|
    ensures forall x :: x in r <==>
      (x in items && MatchesSearch(x, f.searchTerm) && MatchesCategory(x, f.category) && MatchesTab(x, f.tab))
    ensures forall x :: multiset(r)[x] == if Passes(x, f) then multiset(items)[x] else 0
  {
    FilterCounts(items, (x: RestItem) => Passes(x, f));
    Filter(items, (x: RestItem) => Passes(x, f))
  }

  /** Filtering keeps the relative order: the result for a concatenation
      is the concatenation of the results. */
  lemma FilteredItemsKeepOrder(a: seq<RestItem>, b: seq<RestItem>, f: Filters)
    ensures FilteredItems(a + b, f) == FilteredItems(a, f) + FilteredItems(b, f)
  {
    FilterAppend(a, b, (x: RestItem) => Passes(x, f));
  }

  /** The search ignores the case of the term. */
  lemma SearchIgnoresCase(item: RestItem, searchTerm: string)
    ensures MatchesSearch(item, Lower(searchTerm)) <==> MatchesSearch(item, searchTerm)
  {
    LowerIdempotent(searchTerm);
  }

  /** The category test ignores the case of the selected category (once
      the selection is not literally "all"). */
  lemma CategoryIgnoresCase(item: RestItem, category: string)
    requires category != "all" && Lower(category) != "all"
    ensures MatchesCategory(item, Lower(category)) <==> MatchesCategory(item, category)
  {
    LowerIdempotent(category);
  }

  /** An empty search keeps exactly the items that have a name, a
      description or a location: an item with none of the three never
      shows, whatever the filters. */
  lemma EmptySearchNeedsSomeText(item: RestItem)
    ensures MatchesSearch(item, "") <==>
      item.itemName.Some? || item.itemDescription.Some? || item.location.Some?
  {
    assert Lower("") == "";
    if item.itemName.Some? { IncludesEmpty(Lower(item.itemName.value)); }
    if item.itemDescription.Some? { IncludesEmpty(Lower(item.itemDescription.value)); }
    if item.location.Some? { IncludesEmpty(Lower(item.location.value)); }
  }

  /** A tab other than "all" and "claimed" that holds an upper-case letter
      matches no item, since it is compared with a lowercased report type. */
  lemma UpperCaseTabMatchesNothing(item: RestItem, tab: string, i: nat)
    requires tab != "all" && tab != "claimed"
    requires i < |tab| && IsUpperAscii(tab[i])
    ensures !MatchesTab(item, tab)
  {
    if item.reportType.Some? {
      var l := Lower(item.reportType.value);
      if l == tab {
        assert false;
      }
    }
  }

  /** No item is listed under both the "lost" and the "found" tab. */
  lemma LostAndFoundTabsDisjoint(item: RestItem)
    ensures !(MatchesTab(item, "lost") && MatchesTab(item, "found"))
  {
  }

  // ---------------------------------------------------------------------
  // Claiming

  /** A question as the server returns it for an item. */
  datatype FetchedQuestion = FetchedQuestion(id: int, question: string)

  /** A row of the claim form. */
  datatype AnswerRow = AnswerRow(questionId: int, question: string, answer: string)

  /** The claim form after the questions arrive: one row per question, in
      the same order, id and text copied, the answer empty. */
  function ClaimForm(questions: seq<FetchedQuestion>): (rows: seq<AnswerRow>)
    ensures |rows| == |questions|
    ensures forall i :: 0 <= i < |rows| ==>
      rows[i].questionId == questions[i].id && rows[i].question == questions[i].question &&
      rows[i].answer == ""
  {
    Map(questions, (q: FetchedQuestion) => AnswerRow(q.id, q.question, ""))
  }

  /** One entry of the body the answers are posted with. */
  datatype AnswerPayload = AnswerPayload(id: int, question: string, answer: string, itemId: int)

  /** The answers as posted for the selected item. */
  function Payload(rows: seq<AnswerRow>, itemId: int): (p: seq<AnswerPayload>)
    ensures |p| == |rows|
    ensures forall i :: 0 <= i < |p| ==>
      p[i].id == rows[i].questionId && p[i].question == rows[i].question &&
      p[i].answer == rows[i].answer && p[i].itemId == itemId
  {
    Map(rows, (a: AnswerRow) => AnswerPayload(a.questionId, a.question, a.answer, itemId))
  }

  /** The claimant fills in the answer inputs and nothing else. */
  function Answered(rows: seq<AnswerRow>, answers: seq<string>): (r: seq<AnswerRow>)
    requires |answers| == |rows|
    ensures |r| == |rows|
    ensures forall i :: 0 <= i < |r| ==> r[i] == rows[i].(answer := answers[i])
  {
    if rows == [] then []
    else [rows[0].(answer := answers[0])] + Answered(rows[1..], answers[1..])
  }

  /** From fetched questions to the posted body: entry `i` pairs the `i`-th
      fetched question with the `i`-th answer typed, for the selected item. */
  lemma PayloadFollowsQuestions(questions: seq<FetchedQuestion>, answers: seq<string>, itemId: int)
    requires |answers| == |questions|
    ensures var p := Payload(Answered(ClaimForm(questions), answers), itemId);
      |p| == |questions| &&
      forall i :: 0 <= i < |p| ==>
        p[i] == AnswerPayload(questions[i].id, questions[i].question, answers[i], itemId)
  {
  }

  /** The claim button shows for a found item whose status is not exactly
      "claimed"; the report type is compared lowercased, the status is not. */
  predicate ClaimButtonShown(item: RestItem) {
    LowerOpt(item.reportType) == Some("found") && item.status != Some("claimed")
  }

  /** No claim button on a lost item or on an item marked "claimed". */
  lemma ClaimButtonNeedsUnclaimedFound(item: RestItem)
    ensures ClaimButtonShown(item) ==> MatchesTab(item, "found")
    ensures item.status == Some("claimed") ==> !ClaimButtonShown(item)
    ensures MatchesTab(item, "lost") ==> !ClaimButtonShown(item)
  {
  }

  /** The claimed tab and the claim button compare the status differently:
      a found item with status "Claimed" is listed as claimed and still
      offers the claim button. */
  lemma ClaimedTabAndButtonDisagree()
    ensures var item := RestItem(1, Some("found"), None, None, None, None, Some("Claimed"), None, None);
      MatchesTab(item, "claimed") && ClaimButtonShown(item)
  {
    var item := RestItem(1, Some("found"), None, None, None, None, Some("Claimed"), None, None);
    assert Lower("Claimed") == "claimed";
    assert Lower("found") == "found";
    assert "Claimed" != "claimed" by { assert "Claimed"[0] != "claimed"[0]; }
  }

  // ---------------------------------------------------------------------
  // Card images

  const LostImages := [
    "https://placehold.co/300x200/dc3545/ffffff?text=Lost+Item",
    "https://placehold.co/300x200/ff6b6b/ffffff?text=Lost+Object"]
  const FoundImages := [
    "https://placehold.co/300x200/198754/ffffff?text=Found+Item",
    "https://placehold.co/300x200/40c057/ffffff?text=Found+Object"]
  const ClaimedImages := [
    "https://placehold.co/300x200/0dcaf0/ffffff?text=Claimed+Item",
    "https://placehold.co/300x200/20c997/ffffff?text=Claimed+Object"]

  /** The pool a placeholder is drawn from: claimed first, then lost, and
      the found pool for every other report type, a missing one included. */
  function ImagePool(reportType: Option<string>, status: Option<string>): (pool: seq<string>)
    ensures |pool| == 2
    ensures pool == ClaimedImages <==> LowerOpt(status) == Some("claimed")
    ensures pool == LostImages <==>
      LowerOpt(status) != Some("claimed") && LowerOpt(reportType) == Some("lost")
    ensures pool == FoundImages <==>
      LowerOpt(status) != Some("claimed") && LowerOpt(reportType) != Some("lost")
  {
    if LowerOpt(status) == Some("claimed") then ClaimedImages
    else if LowerOpt(reportType) == Some("lost") then LostImages
    else FoundImages
  }

  /** `getRandomImage` with the random draw as `pick`
      (`Math.floor(Math.random() * 2)`). */
  function RandomImage(reportType: Option<string>, status: Option<string>, pick: nat): (url: string)
    requires pick < 2
    ensures url in ImagePool(reportType, status)
  {
    ImagePool(reportType, status)[pick]
  }

  /** A card shows the item's own image when it has a non-empty one, and a
      placeholder from the item's pool otherwise. */
  function CardImage(item: RestItem, pick: nat): (url: string)
    requires pick < 2
    ensures item.imageUrl.Some? && item.imageUrl.value != "" ==> url == item.imageUrl.value
    ensures item.imageUrl.None? || item.imageUrl.value == "" ==>
      url in ImagePool(item.reportType, item.status)
  {
    if item.imageUrl.Some? && item.imageUrl.value != "" then item.imageUrl.value
    else RandomImage(item.reportType, item.status, pick)
  }

  /** The three pools share no image, so a placeholder tells which pool it
      came from. */
  lemma ImagePoolsDisjoint(url: string)
    ensures !(url in LostImages && url in FoundImages)
    ensures !(url in LostImages && url in ClaimedImages)
    ensures !(url in FoundImages && url in ClaimedImages)
  {
    assert LostImages[0][29] == 'd' && LostImages[1][29] == 'f';
    assert FoundImages[0][29] == '1' && FoundImages[1][29] == '4';
    assert ClaimedImages[0][29] == '0' && ClaimedImages[1][29] == '2';
  }
}

/** The page listing other users' lost items. */
module LostItemsPage {
  import opened Common
  import opened Records

  /** A fetched item is listed when its lowercased report type is "lost"
      and, with a user signed in, its owner id differs from the user's id
      (two missing ids count as equal). */
  predicate Listed(item: RestItem, user: Option<Session>) {
    LowerOpt(item.reportType) == Some("lost") && (user.None? || item.userId != user.value.id)
  }

  /** The items listed out of the fetched ones, in fetched order. */
  function LostView(data: seq<RestItem>, user: Option<Session>): (r: seq<RestItem>)
    ensures forall x :: x in r <==> x in data && Listed(x, user)
    ensures forall x :: multiset(r)[x] == if Listed(x, user) then multiset(data)[x] else 0
  {
    FilterCounts(data, (x: RestItem) => Listed(x, user));
    Filter(data, (x: RestItem) => Listed(x, user))
  }

  /** With no user signed in every lost item is listed, as often as it
      was fetched. */
  lemma SignedOutSeesAllLost(data: seq<RestItem>, x: RestItem)
    requires LowerOpt(x.reportType) == Some("lost")
    ensures multiset(LostView(data, None))[x] == multiset(data)[x]
  {
  }

  /** A signed-in user never sees an item recorded under the user's own id. */
  lemma OwnItemsHidden(data: seq<RestItem>, s: Session, item: RestItem)
    requires item.userId == s.id
    ensures item !in LostView(data, Some(s))
  {
  }

  /** The status badge: the status, or "pending" when it is missing or
      empty. */
  function StatusLabel(item: RestItem): (badge: string)
    ensures badge != ""
    ensures item.status.Some? && item.status.value != "" ==> badge == item.status.value
    ensures item.status.None? || item.status.value == "" ==> badge == "pending"
  {
    if item.status.Some? && item.status.value != "" then item.status.value else "pending"
  }

  /** The claim button is disabled exactly when the status is "claimed",
      which is exactly when the badge reads "claimed": a missing status is
      shown as "pending" and leaves the button enabled. */
  function ClaimDisabled(item: RestItem): (disabled: bool)
    ensures disabled <==> StatusLabel(item) == "claimed"
  {
    item.status == Some("claimed")
  }

  const AlreadyClaimed := "Already Claimed"
  const ClaimThisItem := "Claim This Item"

  /** The caption of the claim button, which follows the same test as its
      disabled flag. */
  function ClaimCaption(item: RestItem): (caption: string)
    ensures caption == AlreadyClaimed <==> ClaimDisabled(item)
    ensures caption == ClaimThisItem <==> !ClaimDisabled(item)
  {
    if item.status == Some("claimed") then AlreadyClaimed else ClaimThisItem
  }

  /** The "Add Questions" button needs a found item. */
  predicate AddQuestionsShown(item: RestItem) {
    LowerOpt(item.reportType) == Some("found")
  }

  /** No listed item offers "Add Questions". */
  lemma NoAddQuestionsInView(data: seq<RestItem>, user: Option<Session>, item: RestItem)
    requires item in LostView(data, user)
    ensures !AddQuestionsShown(item)
  {
  }

  const DeleteFailed := "Failed to delete item"

  /** The state of the page: the fetched list, the displayed list and the
      error message. */
  class Page {
    var items: seq<RestItem>
    var filteredItems: seq<RestItem>
    var error: string
    const user: Option<Session>

    /** Both lists hold the same items, all of them listed for the user. */
    ghost predicate Valid()
      reads this
    {
      items == filteredItems && forall x :: x in items ==> Listed(x, user)
    }

    /** The page after the fetch: both lists set to the lost view. */
    constructor (data: seq<RestItem>, user: Option<Session>)
      ensures Valid()
      ensures this.user == user && error == ""
      ensures items == LostView(data, user) && filteredItems == items
    {
      this.user := user;
      items := LostView(data, user);
      filteredItems := LostView(data, user);
      error := "";
    }

    /** `handleDelete(itemId)` once the server answered: an OK response
        removes the items with that id from both lists, keeping order; any
        other response leaves the lists and shows the error. */
    method Delete(itemId: int, responseOk: bool)
      requires Valid()
      modifies this
      ensures Valid()
      ensures responseOk ==>
        && items == Filter(old(items), (x: RestItem) => x.itemId != itemId)
        && error == old(error)
      ensures !responseOk ==> items == old(items) && error == DeleteFailed
      ensures forall x :: x in items ==> x.itemId != itemId || !responseOk
    {
      if responseOk {
        items := Filter(items, (x: RestItem) => x.itemId != itemId);
        filteredItems := Filter(filteredItems, (x: RestItem) => x.itemId != itemId);
      } else {
        error := DeleteFailed;
      }
    }
  }
}
