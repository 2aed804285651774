/**
 * Accounts and access control: signup (POST /user), login (POST /login),
 * the authenticateWithJWT middleware, and the two routes it protects.
 */
module Accounts {
  import opened Wrappers
  import opened JsValues
  import opened Store
  import opened Tokens
  import opened Http

  /** `{email, password}` of req.body. */
  datatype Credentials = Credentials(email: JsValue, password: JsValue)

  /**
   * POST /user: stores the email and the bcrypt hash of the password, nothing
   * else. When bcrypt rejects the password the rejection is unhandled (the
   * route has no catch); this request stores nothing and sends nothing.
   */
  method Signup(db: Db, res: Response, body: Credentials, crypto: Crypto)
    requires db.Valid()
    modifies db`users, db`nextId, res`body
    ensures db.Valid()
    ensures crypto.hash(body.password, SaltRounds).None? ==> unchanged(db) && unchanged(res)
    ensures crypto.hash(body.password, SaltRounds).Some? ==>
      && old(db.nextId) !in old(db.users)
      && db.users == old(db.users)[old(db.nextId) := User(body.email, crypto.hash(body.password, SaltRounds).value)]
      && db.students == old(db.students) && db.nextId == old(db.nextId) + 1
      && Delivered(res, old(res.status), Answer(None, InsertReply(InsertOneResult(true, old(db.nextId)))))
  {
    var hashedPassword := crypto.hash(body.password, SaltRounds);
    if hashedPassword.None? {
      return;
    }
    var result := db.InsertUser(User(body.email, hashedPassword.value));
    res.Json(InsertReply(result));
  }

  const InvalidCredentials := "Invalid login credentials"

  /**
   * The login decision, given the user findOne returned (if any): a token for
   * that user when the password matches its hash, one and the same 400 answer
   * when there is no user or it does not match, and none from this handler
   * when bcrypt rejects the password (an unhandled rejection).
   */
  function LoginAnswer(found: Option<(ObjectId, User)>, password: JsValue, crypto: Crypto, secret: string): (a: Option<Answer>)
    ensures a.None? <==> found.Some? && crypto.compare(password, found.value.1.password).None?
    ensures a.Some? && a.value.reply.TokenReply? <==>
      found.Some? && crypto.compare(password, found.value.1.password) == Some(true)
    ensures a.Some? && a.value.reply.TokenReply? ==>
      a.value == Answer(None, TokenReply(GenerateAccessToken(crypto, secret, found.value.0, found.value.1.email)))
    ensures a.Some? && !a.value.reply.TokenReply? ==> a.value == Answer(Some(400), ErrorMessage(InvalidCredentials))
  {
    match found
    case None => Some(Answer(Some(400), ErrorMessage(InvalidCredentials)))
    case Some((id, user)) =>
      match crypto.compare(password, user.password)
      case None => None
      case Some(ok) =>
        if ok then Some(Answer(None, TokenReply(GenerateAccessToken(crypto, secret, id, user.email))))
        else Some(Answer(Some(400), ErrorMessage(InvalidCredentials)))
  }

  /** An unknown email and a wrong password cannot be told apart. */
  lemma LoginFailuresIndistinguishable(id: ObjectId, user: User, password: JsValue, other: JsValue, crypto: Crypto, secret: string)
    requires crypto.compare(password, user.password) == Some(false)
    ensures LoginAnswer(Some((id, user)), password, crypto, secret) == LoginAnswer(None, other, crypto, secret)
    ensures LoginAnswer(None, other, crypto, secret) == Some(Answer(Some(400), ErrorMessage(InvalidCredentials)))
  {
  }

  /** POST /login; `matches` is how the store compares the email filter with a stored email. */
  method Login(db: Db, res: Response, body: Credentials, matches: (JsValue, JsValue) -> bool, crypto: Crypto, secret: string)
    modifies res
    ensures forall id :: IsEarliestMatch(db.users, matches, body.email, id) ==>
      DeliveredIfAny(res, old(res.status), old(res.body), LoginAnswer(Some((id, db.users[id])), body.password, crypto, secret))
    ensures (forall id :: id in db.users ==> !matches(body.email, db.users[id].email)) ==>
      DeliveredIfAny(res, old(res.status), old(res.body), LoginAnswer(None, body.password, crypto, secret))
  {
    var found := db.FindUserByEmail(body.email, matches);
    if found.Some? {
      var user := db.users[found.value];
      var same := crypto.compare(body.password, user.password);
      if same.None? {
        return;
      }
      if same.value {
        var token := GenerateAccessToken(crypto, secret, found.value, user.email);
        res.Json(TokenReply(token));
      } else {
        res.Status(400);
        res.Json(ErrorMessage(InvalidCredentials));
      }
    } else {
      res.Status(400);
      res.Json(ErrorMessage(InvalidCredentials));
    }
  }

  /**
   * Signing up with an email no stored user matches and then logging in with
   * the same password yields a token for the new user, when bcrypt keeps its
   * promise and the email filter matches the email itself.
   */
  lemma SignupThenLogin(users: map<ObjectId, User>, matches: (JsValue, JsValue) -> bool, id: ObjectId, email: JsValue,
                        password: JsValue, crypto: Crypto, secret: string)
    requires HashMatches(crypto) && crypto.hash(password, SaltRounds).Some?
    requires matches(email, email)
    requires forall k :: k in users ==> !matches(email, users[k].email)
    ensures var after := users[id := User(email, crypto.hash(password, SaltRounds).value)];
      && IsEarliestMatch(after, matches, email, id)
      && LoginAnswer(Some((id, after[id])), password, crypto, secret)
         == Some(Answer(None, TokenReply(GenerateAccessToken(crypto, secret, id, email))))
  {
    var after := users[id := User(email, crypto.hash(password, SaltRounds).value)];
    assert crypto.compare(password, after[id].password) == Some(true);
  }

  /**
   * Without a duplicate check, a signup whose email the filter already matches
   * for an older account is never the account login looks at: findOne returns
   * the older one.
   */
  lemma {:induction false} DuplicateSignupShadowed(users: map<ObjectId, User>, matches: (JsValue, JsValue) -> bool, id: ObjectId,
                                                   email: JsValue, newEmail: JsValue, hashed: string)
    requires forall k :: k in users ==> k < id
    requires exists k :: k in users && matches(email, users[k].email)
    ensures !IsEarliestMatch(users[id := User(newEmail, hashed)], matches, email, id)
    ensures exists e :: e in users && IsEarliestMatch(users[id := User(newEmail, hashed)], matches, email, e)
  {
    var after := users[id := User(newEmail, hashed)];
    var k :| k in users && matches(email, users[k].email);
    assert k in after && matches(email, after[k].email) && k < id;
    EarliestMatchExists(after, matches, email, k);
  }

  const LoginRequiredMessage := "Login required to access this route"

  /**
   * authHeader.split(" ")[1]: undefined exactly when the header has no space,
   * otherwise the second piece, which holds no space.
   */
  function TokenOf(header: string): (t: JsValue)
    ensures t == Undefined <==> ' ' !in header
    ensures ' ' in header ==> |Split(header, ' ')| > 1 && t == Str(Split(header, ' ')[1])
    ensures t.Str? ==> ' ' !in t.s
  {
    var parts := Split(header, ' ');
    SinglePieceWithoutSeparator(header, ' ');
    if |parts| > 1 then Str(parts[1]) else Undefined
  }

  /** The token of "<scheme> <token>" is <token>. */
  lemma BearerToken(scheme: string, token: string)
    requires ' ' !in scheme && ' ' !in token
    ensures TokenOf(scheme + " " + token) == Str(token)
  {
    assert Join([scheme, token], ' ') == scheme + " " + token;
    SplitJoin([scheme, token], ' ');
  }

  /** The three outcomes of the authentication gate. */
  datatype GateOutcome = LoginRequired | InvalidToken(error: TokenError) | Authenticated(payload: TokenPayload)

  function GateDecision(authorization: Option<string>, crypto: Crypto, secret: string): (o: GateOutcome)
    ensures o == LoginRequired <==> authorization.None? || authorization.value == ""
    ensures o.Authenticated? <==>
      authorization.Some? && authorization.value != "" && crypto.verify(TokenOf(authorization.value), secret).Verified?
    ensures o.Authenticated? ==> o.payload == crypto.verify(TokenOf(authorization.value), secret).payload
    ensures o.InvalidToken? ==> crypto.verify(TokenOf(authorization.value), secret) == Rejected(o.error)
  {
    if authorization.None? || authorization.value == "" then LoginRequired
    else match crypto.verify(TokenOf(authorization.value), secret)
      case Rejected(err) => InvalidToken(err)
      case Verified(payload) => Authenticated(payload)
  }

  /** The answer of a rejected request: always a 400, carrying the verification error when there is one. */
  function Rejection(o: GateOutcome): (a: Answer)
    requires !o.Authenticated?
    ensures a.status == Some(400)
    ensures a.reply == ErrorMessage(LoginRequiredMessage) <==> o == LoginRequired
    ensures o.InvalidToken? ==> a.reply == ErrorObject(o.error)
  {
    match o
    case LoginRequired => Answer(Some(400), ErrorMessage(LoginRequiredMessage))
    case InvalidToken(err) => Answer(Some(400), ErrorObject(err))
  }

  /**
   * A token issued at login opens the protected routes as "Bearer <token>",
   * carrying the id and email of the user who logged in, when jsonwebtoken
   * keeps its promise.
   */
  lemma LoginThenAuthenticate(found: Option<(ObjectId, User)>, password: JsValue, crypto: Crypto, secret: string)
    requires TokensVerify(crypto, secret)
    requires LoginAnswer(found, password, crypto, secret).Some?
    requires LoginAnswer(found, password, crypto, secret).value.reply.TokenReply?
    ensures var token := LoginAnswer(found, password, crypto, secret).value.reply.token;
      GateDecision(Some("Bearer " + token), crypto, secret)
        == Authenticated(TokenPayload(found.value.0, found.value.1.email))
  {
    var token := GenerateAccessToken(crypto, secret, found.value.0, found.value.1.email);
    BearerToken("Bearer", token);
    assert "Bearer" + " " + token == "Bearer " + token;
  }

  /** authenticateWithJWT(req, res, next) */
  method Authenticate(req: Request, res: Response, next: Next, crypto: Crypto, secret: string)
    modifies req`payload, res, next
    ensures var o := GateDecision(req.authorization, crypto, secret);
      if o.Authenticated? then
        && req.payload == Some(o.payload)
        && next.calls == old(next.calls) + 1
        && unchanged(res)
      else
        && Delivered(res, old(res.status), Rejection(o))
        && next.calls == old(next.calls)
        && req.payload == old(req.payload)
  {
    var authHeader := req.authorization;
    if authHeader.Some? && authHeader.value != "" {
      var token := TokenOf(authHeader.value);
      var v := crypto.verify(token, secret);
      if v.Rejected? {
        res.Status(400);
        res.Json(ErrorObject(v.error));
      } else {
        req.payload := Some(v.payload);
        next.Call();
      }
    } else {
      res.Status(400);
      res.Json(ErrorMessage(LoginRequiredMessage));
    }
  }

  const ProfileMessage := "success in accessing protected route"
  const PaymentMessage := "accessing protected payment route"

  /** GET /profile, behind the gate: the handler runs only for an authenticated request. */
  method Profile(req: Request, res: Response, crypto: Crypto, secret: string)
    modifies req`payload, res
    ensures var o := GateDecision(req.authorization, crypto, secret);
      if o.Authenticated? then
        && req.payload == Some(o.payload)
        && Delivered(res, old(res.status), Answer(None, ProfileReply(ProfileMessage, Some(o.payload))))
      else
        && Delivered(res, old(res.status), Rejection(o))
        && req.payload == old(req.payload)
  {
    var next := new Next();
    Authenticate(req, res, next, crypto, secret);
    if next.calls == 1 {
      res.Json(ProfileReply(ProfileMessage, req.payload));
    }
  }

  /** GET /payment, behind the gate. */
  method Payment(req: Request, res: Response, crypto: Crypto, secret: string)
    modifies req`payload, res
    ensures var o := GateDecision(req.authorization, crypto, secret);
      if o.Authenticated? then
        && req.payload == Some(o.payload)
        && Delivered(res, old(res.status), Answer(None, MessageReply(PaymentMessage)))
      else
        && Delivered(res, old(res.status), Rejection(o))
        && req.payload == old(req.payload)
  {
    var next := new Next();
    Authenticate(req, res, next, crypto, secret);
    if next.calls == 1 {
      res.Json(MessageReply(PaymentMessage));
    }
  }
}
