/** Session login and logout (controllers/AppController.js): reading the Basic `Authorization` header,
    checking the credentials against the users collection, and issuing or deleting `auth_<token>`. */
module Auth {

  import opened Records
  import opened JsText
  import opened Storage
  import opened Helpers

  /** Seconds a session stays in the cache (24 hours). */
  const SESSION_TTL := 86400

  /** The fields `[email, password]` destructured from the decoded credentials; the second may be missing. */
  datatype Credentials = Credentials(email: string, password: Option<string>)

  /** `decoded.split(':')` destructured into `[email, password]`: the first two colon-separated fields. */
  function ColonFields(decoded: string): (c: Credentials)
    ensures ':' !in c.email
    ensures c.password.None? <==> ':' !in decoded
    ensures c.password.Some? ==> ':' !in c.password.value
    ensures c.email <= decoded && (|c.email| == |decoded| || decoded[|c.email|] == ':')
  {
    var f := Split(decoded, ':');
    SplitFirstPiece(decoded, ':');
    Credentials(f[0], if |f| >= 2 then Some(f[1]) else None)
  }

  /** The reference reading of section 2 of RFC 7617: the user-id ends at the first colon, and the
      password is all the text after it, colons included. */
  function Rfc7617Fields(decoded: string): (r: Option<(string, string)>)
    ensures r.Some? <==> ':' in decoded
    ensures r.Some? ==> decoded == r.value.0 + [':'] + r.value.1 && ':' !in r.value.0
  {
    if ':' in decoded then
      var i := IndexOf(decoded, ':');
      AroundFirst(decoded, ':');
      Some((decoded[..i], decoded[i + 1..]))
    else None
  }

  /** The source agrees with RFC 7617 on the e-mail, and on the password exactly when the password holds
      no colon; with a colon in the password it keeps only the text before that colon. */
  lemma {:induction false} ColonFieldsVersusRfc7617(decoded: string)
    ensures ColonFields(decoded).password.None? <==> Rfc7617Fields(decoded).None?
    ensures Rfc7617Fields(decoded).Some? ==>
              var (user, pass) := Rfc7617Fields(decoded).value;
              && ColonFields(decoded).email == user
              && ColonFields(decoded).password == Some(Split(pass, ':')[0])
              && (ColonFields(decoded).password == Some(pass) <==> ':' !in pass)
  {
    if ':' in decoded {
      var (user, pass) := Rfc7617Fields(decoded).value;
      SplitAtFirst(user, pass, ':');
      assert Split(decoded, ':') == [user] + Split(pass, ':');
      if ':' !in pass {
        SplitWhole(pass, ':');
      }
    }
  }

  /** A password containing ':' is cut at its first colon. */
  lemma PasswordTruncatedAtColon(email: string, p1: string, p2: string)
    requires ':' !in email && ':' !in p1
    ensures ColonFields(email + ":" + p1 + ":" + p2) == Credentials(email, Some(p1))
  {
    var decoded := email + ":" + p1 + ":" + p2;
    assert decoded == email + [':'] + (p1 + [':'] + p2);
    SplitAtFirst(email, p1 + [':'] + p2, ':');
    SplitAtFirst(p1, p2, ':');
  }

  /** What getConnect makes of the `Authorization` header. */
  datatype HeaderRead =
    | Absent                      // missing or empty header
    | NoSecondWord                // no space: `split(' ')[1]` is undefined
    | Decoded(creds: Credentials) // the second word, base64-decoded as ASCII, split on ':'

  /** `Buffer.from(header.split(' ')[1], 'base64').toString('ascii').split(':')`; `base64Ascii` stands for
      the decoding. The scheme word before the space is not checked. */
  function ReadAuthorization(header: Option<string>, base64Ascii: string -> string): (h: HeaderRead)
    ensures h.Absent? <==> !Truthy(header)
    ensures h.NoSecondWord? <==> Truthy(header) && ' ' !in header.value
  {
    if !Truthy(header) then Absent
    else
      var words := Split(header.value, ' ');
      if |words| < 2 then NoSecondWord
      else Decoded(ColonFields(base64Ascii(words[1])))
  }

  /** A header `<scheme> <encoded>`, optionally followed by more space-separated text, decodes its
      second word `encoded`, whatever the scheme word says; words after it are ignored. */
  lemma ReadBasicHeader(scheme: string, encoded: string, rest: string, base64Ascii: string -> string)
    requires ' ' !in scheme && ' ' !in encoded
    requires rest == [] || rest[0] == ' '
    ensures ReadAuthorization(Some(scheme + " " + encoded + rest), base64Ascii)
              == Decoded(ColonFields(base64Ascii(encoded)))
  {
    var header := scheme + " " + encoded + rest;
    if rest == [] {
      assert header == scheme + [' '] + encoded;
      SplitAtFirst(scheme, encoded, ' ');
      SplitWhole(encoded, ' ');
    } else {
      assert rest == [' '] + rest[1..];
      assert header == scheme + [' '] + (encoded + [' '] + rest[1..]);
      SplitAtFirst(scheme, encoded + [' '] + rest[1..], ' ');
      SplitAtFirst(encoded, rest[1..], ' ');
    }
  }

  datatype Login = Denied | HeaderCrash | Granted(userId: string)

  /** The decision of getConnect: the header is read, empty fields are refused, and the user is looked up
      by e-mail and the SHA-1 hex digest (`sha1Hex`) of the password. */
  function Authenticate(
    users: map<string, UserDoc>, order: seq<string>, header: Option<string>,
    base64Ascii: string -> string, sha1Hex: string -> string): (l: Login)
    ensures l.HeaderCrash? <==> ReadAuthorization(header, base64Ascii).NoSecondWord?
    ensures !Truthy(header) ==> l.Denied?
    ensures l.Granted? ==>
              var c := ReadAuthorization(header, base64Ascii).creds;
              && c.email != "" && Truthy(c.password)
              && l.userId in users
              && users[l.userId] == UserDoc(c.email, sha1Hex(c.password.value))
  {
    match ReadAuthorization(header, base64Ascii)
    case Absent => Denied
    case NoSecondWord => HeaderCrash
    case Decoded(c) =>
      if c.email == "" || !Truthy(c.password) then Denied
      else
        match FindUser(users, order, c.email, Some(sha1Hex(c.password.value)))
        case None => Denied
        case Some(uid) => Granted(uid)
  }

  /** With non-empty decoded fields, login succeeds exactly when some user has that e-mail and the digest
      of that password. */
  lemma LoginIffRegistered(
    users: map<string, UserDoc>, order: seq<string>, header: Option<string>,
    base64Ascii: string -> string, sha1Hex: string -> string, email: string, password: string)
    requires Indexes(order, users.Keys)
    requires ReadAuthorization(header, base64Ascii) == Decoded(Credentials(email, Some(password)))
    requires email != "" && password != ""
    ensures Authenticate(users, order, header, base64Ascii, sha1Hex).Granted?
        <==> exists id :: id in users && users[id] == UserDoc(email, sha1Hex(password))
  {
    FindUserComplete(users, order, email, Some(sha1Hex(password)));
    if Authenticate(users, order, header, base64Ascii, sha1Hex).Denied? {
      forall id | id in users
        ensures users[id] != UserDoc(email, sha1Hex(password))
      {
        assert !UserMatches(users[id], email, Some(sha1Hex(password)));
      }
    }
  }

  /** `getConnect`: one cache write `auth_<token> -> user id` with a 24-hour TTL on success; `token` is the
      fresh uuid the handler draws. */
  method GetConnect(
    db: Db, cache: Cache, header: Option<string>,
    base64Ascii: string -> string, sha1Hex: string -> string, token: string) returns (r: Response)
    modifies cache
    ensures var l := Authenticate(db.users, db.userOrder, header, base64Ascii, sha1Hex);
            && (l.Denied? ==> r == UNAUTHORIZED && cache.entries == old(cache.entries))
            && (l.HeaderCrash? ==> r == Crashed && cache.entries == old(cache.entries))
            && (l.Granted? ==>
                  && r == Reply(200, Token(token))
                  && cache.entries == old(cache.entries)[SessionKey(token) := Entry(l.userId, SESSION_TTL)])
    ensures var l := Authenticate(db.users, db.userOrder, header, base64Ascii, sha1Hex);
            l.Granted? && token != "" && l.userId != "" ==> FindUserIdByToken(cache.entries, Some(token)) == Some(l.userId)
  {
    if !Truthy(header) {
      return UNAUTHORIZED;
    }
    var words := Split(header.value, ' ');
    if |words| < 2 {
      return Crashed;
    }
    var c := ColonFields(base64Ascii(words[1]));
    if c.email == "" || !Truthy(c.password) {
      return UNAUTHORIZED;
    }
    var digest := sha1Hex(c.password.value);
    var user := FindUser(db.users, db.userOrder, c.email, Some(digest));
    if user.None? {
      return UNAUTHORIZED;
    }
    cache.Set(SessionKey(token), user.value, SESSION_TTL);
    r := Reply(200, Token(token));
  }

  /** The key getDisconnect consults: without an `X-Token` header the token reads as the text "undefined". */
  function DisconnectKey(token: Option<string>): (key: string)
    ensures key == SessionKey(if token.Some? then token.value else "undefined")
  {
    SESSION_PREFIX + (if token.Some? then token.value else "undefined")
  }

  /** `getDisconnect`: deletes exactly the consulted key when it holds a session, else answers 401. */
  method GetDisconnect(cache: Cache, token: Option<string>) returns (r: Response)
    modifies cache
    ensures Resolvable(old(cache.entries), DisconnectKey(token)) ==>
              r == Reply(204, NoContent) && cache.entries == old(cache.entries) - {DisconnectKey(token)}
    ensures !Resolvable(old(cache.entries), DisconnectKey(token)) ==>
              r == UNAUTHORIZED && cache.entries == old(cache.entries)
    ensures !Resolvable(cache.entries, DisconnectKey(token))
  {
    var key := DisconnectKey(token);
    if key !in cache.entries || cache.entries[key].value == "" {
      return UNAUTHORIZED;
    }
    cache.Del(key);
    r := Reply(204, NoContent);
  }

  /** Logging out twice with the same token: the second attempt answers 401 and changes nothing. */
  method DisconnectTwice(cache: Cache, token: Option<string>) returns (first: Response, second: Response)
    modifies cache
    ensures first == Reply(204, NoContent) <==> Resolvable(old(cache.entries), DisconnectKey(token))
    ensures second == UNAUTHORIZED
  {
    first := GetDisconnect(cache, token);
    second := GetDisconnect(cache, token);
  }
}
