/** The records the client keeps. Two item shapes exist side by side: the
    `localStorage` shape written by the dashboards and the REST shape the
    server returns to the public pages. */
module Records {
  import opened Common

  /** A record of the `users` table in `localStorage`. */
  datatype User = User(
    id: int,
    username: string,
    email: string,
    password: string,
    role: string,
    isActive: bool,
    lastLogin: Option<string>)

  /** The signed-in user as kept in the `currentUser` key and in the
      authentication context. Every key may be missing: a session built by
      a partial update of an absent user holds only the updated keys.
      There is no password key. */
  datatype Session = Session(
    id: Option<int>,
    email: Option<string>,
    username: Option<string>,
    role: Option<string>,
    isActive: Option<bool>,
    lastLogin: Option<string>)

  /** A security question (question text plus answer) attached to a stored item. */
  datatype Question = Question(id: int, question: string, answer: string)

  /** A record of the `items` table in `localStorage`. `itemType` is the
      record's `type` key ("lost" or "found"); `status` and `itemType` are
      kept as the strings the pages compare against. */
  datatype Item = Item(
    id: int,
    itemType: string,
    name: string,
    category: string,
    location: string,
    description: string,
    reportedBy: string,
    status: string,
    createdAt: string,
    updatedAt: string,
    securityQuestions: Option<seq<Question>>,
    adminProcessedBy: Option<string>)

  /** An item as the REST server returns it; the pages read every
      descriptive key with optional chaining, so each may be missing. */
  datatype RestItem = RestItem(
    itemId: int,
    reportType: Option<string>,
    itemName: Option<string>,
    itemDescription: Option<string>,
    location: Option<string>,
    category: Option<string>,
    status: Option<string>,
    userId: Option<int>,
    imageUrl: Option<string>)
}
