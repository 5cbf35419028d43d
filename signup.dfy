/**
 * The `addUserToFirestore` callable: it checks the signup request, then writes
 * a company record and the user's profile, linked to each other, in one batch.
 */
module Signup {
  import opened Wrappers

  /** The request's fields; `None` is a field that is absent, null or undefined. */
  datatype SignupRequest = SignupRequest(
    uid: Option<string>, email: Option<string>, name: Option<string>,
    companyName: Option<string>, phone: Option<string>, plan: Option<string>)

  /** A JavaScript falsy string: missing or empty. */
  predicate Falsy(field: Option<string>) {
    field.None? || field.value == ""
  }

  predicate Complete(req: SignupRequest) {
    !Falsy(req.uid) && !Falsy(req.email) && !Falsy(req.name) &&
    !Falsy(req.companyName) && !Falsy(req.phone) && !Falsy(req.plan)
  }

  /** `createdAt` is the one server timestamp taken before both writes. */
  datatype Company = Company(name: string, plan: string, ownerId: string, createdAt: int)

  datatype UserProfile = UserProfile(name: string, email: string, phone: string, companyId: string, role: string, createdAt: int)

  /** The two collections, by document id. */
  datatype Database = Database(companies: map<string, Company>, users: map<string, UserProfile>)

  datatype Success = Success(status: string, companyId: string, userId: string)

  const MissingData := "Missing data for user creation."
  const SetupFailed := "Failed to set up user and company in Firestore: "

  /** The database after the call, with what the function returns or throws. */
  datatype Outcome = Outcome(db: Database, reply: Result<Success, string>)

  /**
   * The callable. `companyId` is the id of the new company document, `now` the server
   * time, and `commitError` the message of a failed commit, if the commit fails.
   */
  function AddUser(db: Database, req: SignupRequest, companyId: string, now: int, commitError: Option<string>): (r: Outcome)
    ensures !Complete(req) ==> r == Outcome(db, Err(MissingData))
    ensures Complete(req) && commitError.Some? ==> r == Outcome(db, Err(SetupFailed + commitError.value))
    ensures Complete(req) && commitError.None? ==>
              r.reply == Ok(Success("success", companyId, req.uid.value)) &&
              r.db.companies == db.companies[companyId := Company(req.companyName.value, req.plan.value, req.uid.value, now)] &&
              r.db.users == db.users[req.uid.value := UserProfile(req.name.value, req.email.value, req.phone.value, companyId, "Admin", now)]
  {
    if !Complete(req) then Outcome(db, Err(MissingData))
    else if commitError.Some? then Outcome(db, Err(SetupFailed + commitError.value))
    else
      var uid := req.uid.value;
      var company := Company(req.companyName.value, req.plan.value, uid, now);
      var user := UserProfile(req.name.value, req.email.value, req.phone.value, companyId, "Admin", now);
      Outcome(Database(db.companies[companyId := company], db.users[uid := user]), Ok(Success("success", companyId, uid)))
  }

  /** A call either writes both records or leaves the database unchanged, and it says which. */
  lemma AllOrNothing(db: Database, req: SignupRequest, companyId: string, now: int, commitError: Option<string>)
    ensures AddUser(db, req, companyId, now, commitError).reply.Ok? <==> Complete(req) && commitError.None?
    ensures var r := AddUser(db, req, companyId, now, commitError);
            r.reply.Err? ==> r.db == db
    ensures var r := AddUser(db, req, companyId, now, commitError);
            r.reply.Ok? ==> companyId in r.db.companies && r.reply.value.userId in r.db.users
  {
  }

  /** On success the user points at the company, the company at the user, and both carry one time. */
  lemma RecordsLinked(db: Database, req: SignupRequest, companyId: string, now: int)
    requires Complete(req)
    ensures var r := AddUser(db, req, companyId, now, None);
            var uid := req.uid.value;
            r.reply.Ok? && uid in r.db.users && companyId in r.db.companies &&
            r.db.users[uid].companyId == companyId && r.db.companies[companyId].ownerId == uid &&
            r.db.users[uid].role == "Admin" &&
            r.db.users[uid].createdAt == r.db.companies[companyId].createdAt == now
  {
  }

  /** Documents other than the two written are untouched. */
  lemma OthersUntouched(db: Database, req: SignupRequest, companyId: string, now: int, commitError: Option<string>, c: string, u: string)
    requires c in db.companies && u in db.users
    ensures var r := AddUser(db, req, companyId, now, commitError);
            (c != companyId ==> c in r.db.companies && r.db.companies[c] == db.companies[c]) &&
            (Complete(req) && u != req.uid.value ==> u in r.db.users && r.db.users[u] == db.users[u])
  {
  }

  /** An empty string is rejected exactly like a missing field. */
  lemma EmptyFieldRejected(db: Database, req: SignupRequest, companyId: string, now: int, commitError: Option<string>)
    requires req.plan == Some("")
    ensures AddUser(db, req, companyId, now, commitError) == Outcome(db, Err(MissingData))
  {
  }
}
