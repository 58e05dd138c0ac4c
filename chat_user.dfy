/** The lab02 chat users (labs/lab02/backend/user/user.go): a validator and a manager
    keyed by user id. The optional context is a `hasContext` flag plus the error
    `ctx.Err()` reports; the mutex is left out. */
module Lab02User {
  import opened Wrappers
  import opened GoContext

  datatype User = User(name: string, email: string, id: string)

  /** The error `Validate` reports, by the checks in the order the code makes them:
      the name, then the email (non-empty, holding an '@' and a '.' somewhere), then the id. */
  function ValidationError(u: User): (r: Option<string>)
    ensures r == None <==> u.name != "" && u.email != "" && '@' in u.email && '.' in u.email && u.id != ""
    ensures u.name == "" ==> r == Some("empty name")
    ensures u.name != "" && (u.email == "" || '@' !in u.email || '.' !in u.email) ==> r == Some("invalid email")
    ensures u.name != "" && u.email != "" && '@' in u.email && '.' in u.email && u.id == "" ==> r == Some("empty ID")
  {
    if |u.name| == 0 then Some("empty name")
    else if |u.email| == 0 || '@' !in u.email || '.' !in u.email then Some("invalid email")
    else if |u.id| == 0 then Some("empty ID")
    else None
  }

  /** User.Validate: the email is scanned once with two flags. */
  method Validate(u: User) returns (err: Option<string>)
    ensures err == ValidationError(u)
  {
    if |u.name| == 0 {
      return Some("empty name");
    }
    var ret := Some("invalid email");
    if |u.email| == 0 {
      return ret;
    }
    var atFound, dotFound := false, false;
    for i := 0 to |u.email|
      invariant atFound <==> '@' in u.email[..i]
      invariant dotFound <==> '.' in u.email[..i]
    {
      assert u.email[..i + 1] == u.email[..i] + [u.email[i]];
      if u.email[i] == '@' {
        atFound := true;
      }
      if u.email[i] == '.' {
        dotFound := true;
      }
    }
    assert u.email[..|u.email|] == u.email;
    if !atFound || !dotFound {
      return ret;
    }
    if |u.id| == 0 {
      return Some("empty ID");
    }
    return None;
  }

  class UserManager {
    var users: map<string, User>
    /** The manager was built by NewUserManagerWithContext. */
    var hasContext: bool
    /** That context's `ctx.Err()`: `None` while it is live. */
    var ctxErr: Option<ContextError>

    /** NewUserManager (no context) or NewUserManagerWithContext. */
    constructor (hasContext: bool, ctxErr: Option<ContextError>)
      ensures users == map[] && this.hasContext == hasContext && this.ctxErr == ctxErr
    {
      users := map[];
      this.hasContext := hasContext;
      this.ctxErr := ctxErr;
    }

    /** The context ends, by `cancel()` or by its deadline, between two calls; a context
        that is already done keeps its first error. */
    method EndContext(cause: ContextError)
      modifies this`ctxErr
      ensures ctxErr == Ended(old(ctxErr), cause)
    {
      ctxErr := Ended(ctxErr, cause);
    }

    /** AddUser: store `u` under its id without validating it, replacing any earlier
        entry; the context's error is reported only after the store. */
    method AddUser(u: User) returns (err: Option<ContextError>)
      modifies this`users
      ensures users == old(users)[u.id := u]
      ensures err == if hasContext then ctxErr else None
    {
      users := users[u.id := u];
      if hasContext {
        return ctxErr;
      }
      return None;
    }

    /** RemoveUser: an absent id is "not found" and changes nothing; a present id is the
        only entry removed. */
    method RemoveUser(id: string) returns (err: Option<string>)
      modifies this`users
      ensures id !in old(users) ==> err == Some("not found") && users == old(users)
      ensures id in old(users) ==> err == None && users == old(users) - {id}
    {
      if id !in users {
        return Some("not found");
      }
      users := users - {id};
      return None;
    }

    /** GetUser: the stored user, or the zero `User` with "not found". */
    method GetUser(id: string) returns (u: User, err: Option<string>)
      ensures id in users ==> u == users[id] && err == None
      ensures id !in users ==> u == User("", "", "") && err == Some("not found")
    {
      if id in users {
        return users[id], None;
      }
      return User("", "", ""), Some("not found");
    }
  }
}
