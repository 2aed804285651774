/**
 * The parts of Express the handlers touch: the response they fill in step by
 * step (res.status, then res.json), the request the authentication gate
 * annotates, and the `next` callback.
 */
module Http {
  import opened Wrappers
  import opened Store
  import opened Tokens

  /** The JSON bodies the service sends, one constructor per shape. */
  datatype Reply =
    | ErrorMessage(error: string)                             // {error: '...'}
    | ErrorObject(tokenError: TokenError)                     // {error: err}
    | StudentList(students: map<ObjectId, Student>)           // {students: results}
    | InsertReply(result: InsertOneResult)                    // {result: result}
    | StudentReply(student: Student)                          // {result: modifiedStudent}
    | MessageReply(message: string)                           // {message: '...'}
    | TokenReply(token: string)                               // {token}
    | ProfileReply(message: string, payload: Option<TokenPayload>)  // {message, payload}

  /** A decided response: the status the handler sets (None: left as it was) and the body it sends. */
  datatype Answer = Answer(status: Option<nat>, reply: Reply)

  class Response {
    var status: nat
    var body: Option<Reply>

    constructor ()
      ensures status == 200 && body == None
    {
      status, body := 200, None;
    }

    /** res.status(code) */
    method Status(code: nat)
      modifies this`status
      ensures status == code
    {
      status := code;
    }

    /** res.json(r) */
    method Json(r: Reply)
      modifies this`body
      ensures body == Some(r)
    {
      body := Some(r);
    }
  }

  /** `res` carries answer `a`, given that its status was `before`. */
  ghost predicate Delivered(res: Response, before: nat, a: Answer)
    reads res
  {
    && res.body == Some(a.reply)
    && res.status == (if a.status.Some? then a.status.value else before)
  }

  /** `res` carries answer `a`, or, when there is none (a promise rejected and nothing was sent), is as it was. */
  ghost predicate DeliveredIfAny(res: Response, before: nat, beforeBody: Option<Reply>, a: Option<Answer>)
    reads res
  {
    if a.None? then res.status == before && res.body == beforeBody else Delivered(res, before, a.value)
  }

  class Request {
    /** req.headers.authorization */
    const authorization: Option<string>
    /** req.payload, set by the authentication gate */
    var payload: Option<TokenPayload>

    constructor (authorization: Option<string>)
      ensures this.authorization == authorization && payload == None
    {
      this.authorization := authorization;
      payload := None;
    }
  }

  /** The `next` callback of a middleware; counts how often it is called. */
  class Next {
    var calls: nat

    constructor ()
      ensures calls == 0
    {
      calls := 0;
    }

    method Call()
      modifies this
      ensures calls == old(calls) + 1
    {
      calls := calls + 1;
    }
  }
}
