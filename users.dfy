/** User registration and "me" (controllers/UsersController.js). */
module Users {

  import opened Records
  import opened Storage
  import opened Helpers
  import Auth

  /** No two users share an e-mail address. */
  ghost predicate UniqueEmails(users: map<string, UserDoc>) {
    forall a, b :: a in users && b in users && users[a].email == users[b].email ==> a == b
  }

  /** The checks postNew makes before inserting, in the source's order: the response of the first that
      fails, or None when the registration may proceed. */
  function RegistrationError(
    users: map<string, UserDoc>, order: seq<string>, email: Option<string>, password: Option<string>)
    : (e: Option<Response>)
    ensures !Truthy(email) ==> e == Some(Reply(400, Error("Missing email")))
    ensures Truthy(email) && !Truthy(password) ==> e == Some(Reply(400, Error("Missing password")))
    ensures Truthy(email) && Truthy(password) && e.Some? ==> e == Some(Reply(400, Error("Already exist")))
  {
    if !Truthy(email) then Some(Reply(400, Error("Missing email")))
    else if !Truthy(password) then Some(Reply(400, Error("Missing password")))
    else if FindUser(users, order, email.value, None).Some? then Some(Reply(400, Error("Already exist")))
    else None
  }

  /** Registration proceeds exactly when both fields are present and no user has that e-mail yet. */
  lemma RegistrationAccepted(
    users: map<string, UserDoc>, order: seq<string>, email: Option<string>, password: Option<string>)
    requires Indexes(order, users.Keys)
    ensures RegistrationError(users, order, email, password).None?
        <==> Truthy(email) && Truthy(password) && forall id :: id in users ==> users[id].email != email.value
  {
    if Truthy(email) {
      FindUserComplete(users, order, email.value, None);
    }
  }

  /** `postNew` with its welcome-job enqueue working: the user is inserted under the fresh id `newId`
      with the SHA-1 hex digest (`sha1Hex`) of the password, the response holds only id and e-mail, and a
      welcome job for the new id is enqueued. */
  method PostNew(
    db: Db, userQueue: JobQueue<WelcomeJob>, email: Option<string>, password: Option<string>,
    sha1Hex: string -> string, newId: string) returns (r: Response)
    requires db.Valid() && newId !in db.users
    modifies db, userQueue
    ensures db.Valid()
    ensures db.files == old(db.files) && db.fileOrder == old(db.fileOrder)
    ensures var e := RegistrationError(old(db.users), old(db.userOrder), email, password);
            e.Some? ==>
              && r == e.value
              && db.users == old(db.users) && db.userOrder == old(db.userOrder)
              && userQueue.jobs == old(userQueue.jobs)
    ensures var e := RegistrationError(old(db.users), old(db.userOrder), email, password);
            e.None? ==>
              && db.users == old(db.users)[newId := UserDoc(email.value, sha1Hex(password.value))]
              && db.userOrder == old(db.userOrder) + [newId]
              && r == Reply(201, UserView(newId, email.value))
              && userQueue.jobs == old(userQueue.jobs) + [WelcomeJob(Some(newId))]
    ensures UniqueEmails(old(db.users)) ==> UniqueEmails(db.users)
  {
    var e := RegistrationError(db.users, db.userOrder, email, password);
    if e.Some? {
      return e.value;
    }
    RegistrationAccepted(db.users, db.userOrder, email, password);
    db.InsertUser(newId, UserDoc(email.value, sha1Hex(password.value)));
    userQueue.Add(WelcomeJob(Some(newId)));
    r := Reply(201, UserView(newId, email.value));
  }

  /** `postNew` as written: `userQueue` is bound to the worker module's export object, whose `add` is not
      a function, so every registration that passes the checks inserts the user and then answers 500,
      with no job enqueued. */
  method PostNewAsWritten(
    db: Db, email: Option<string>, password: Option<string>, sha1Hex: string -> string, newId: string)
    returns (r: Response)
    requires db.Valid() && newId !in db.users
    modifies db
    ensures db.Valid()
    ensures db.files == old(db.files) && db.fileOrder == old(db.fileOrder)
    ensures var e := RegistrationError(old(db.users), old(db.userOrder), email, password);
            e.Some? ==> r == e.value && db.users == old(db.users) && db.userOrder == old(db.userOrder)
    ensures var e := RegistrationError(old(db.users), old(db.userOrder), email, password);
            e.None? ==>
              && db.users == old(db.users)[newId := UserDoc(email.value, sha1Hex(password.value))]
              && db.userOrder == old(db.userOrder) + [newId]
              && r == Reply(500, Error("Internal server error"))
  {
    var e := RegistrationError(db.users, db.userOrder, email, password);
    if e.Some? {
      return e.value;
    }
    db.InsertUser(newId, UserDoc(email.value, sha1Hex(password.value)));
    // `userQueue.add` throws a TypeError here, which the handler's catch turns into a 500.
    r := Reply(500, Error("Internal server error"));
  }

  /** `getMe`: 401 unless the token resolves to a user id whose document exists; then that id (the
      session's value) and the stored e-mail. */
  function GetMe(users: map<string, UserDoc>, entries: map<string, Entry>, token: Option<string>)
    : (r: Response)
    ensures var uid := FindUserIdByToken(entries, token);
            && (uid.Some? && uid.value in users ==> r == Reply(200, UserView(uid.value, users[uid.value].email)))
            && (uid.None? || uid.value !in users ==> r == UNAUTHORIZED)
  {
    match FindUserIdByToken(entries, token)
    case None => UNAUTHORIZED
    case Some(uid) => if uid in users then Reply(200, UserView(uid, users[uid].email)) else UNAUTHORIZED
  }

  /** Once registered under `id` (with unique e-mails), the same e-mail and password log in as `id`. */
  lemma RegisteredUserLogsIn(
    users: map<string, UserDoc>, order: seq<string>, id: string, email: string, password: string,
    header: Option<string>, base64Ascii: string -> string, sha1Hex: string -> string)
    requires Indexes(order, users.Keys) && UniqueEmails(users)
    requires id in users && users[id] == UserDoc(email, sha1Hex(password))
    requires Auth.ReadAuthorization(header, base64Ascii) == Auth.Decoded(Auth.Credentials(email, Some(password)))
    requires email != "" && password != ""
    ensures Auth.Authenticate(users, order, header, base64Ascii, sha1Hex) == Auth.Granted(id)
  {
    Auth.LoginIffRegistered(users, order, header, base64Ascii, sha1Hex, email, password);
  }
}
