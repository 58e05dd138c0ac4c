/** The lab04 user model's validation (labs/lab04/backend/models/user.go): a four-stage email
    automaton and the name-length rule shared by `User` and `CreateUserRequest`. */
module Lab04User {
  import opened Wrappers
  import opened Strings

  datatype User = User(id: int, name: string, email: string, createdAt: int, updatedAt: int)

  datatype CreateUserRequest = CreateUserRequest(name: string, email: string)

  const EmptyUsername: string := "empty username"
  const EmptyMailServer: string := "empty mail server"
  const MultipleDomains: string := "multiple domains provided"
  const AtCountWrong: string := "'@' symbol is met more than once"
  const IncompleteEmail: string := "incomplete email"

  /** The checks made after the scan: the '@' count first, then whether the scan completed. */
  function FinalCheck(e: string, completed: bool): (r: Option<string>)
    ensures r == None <==> Count(e, '@') == 1 && completed
    ensures Count(e, '@') != 1 ==> r == Some(AtCountWrong)
    ensures Count(e, '@') == 1 && !completed ==> r == Some(IncompleteEmail)
  {
    if Count(e, '@') != 1 then Some(AtCountWrong)
    else if !completed then Some(IncompleteEmail)
    else None
  }

  /** What validateEmail answers, stated by positions: `p` is the first '@', `q` the first '.'
      after it. A scan error (empty username, empty mail server, a '.' after the character
      that follows `q`) wins over the '@' count; the scan completes when a character follows `q`. */
  function EmailCheck(e: string): (r: Option<string>)
    ensures |e| > 0 && e[0] == '@' ==> r == Some(EmptyUsername)
    ensures r == None ==> Count(e, '@') == 1
    ensures r == None ==> var p := NextIndex(e, '@', 0);
                          0 < p < |e| && NextIndex(e, '.', p + 1) + 1 < |e|
  {
    var p := NextIndex(e, '@', 0);
    if p == |e| then FinalCheck(e, false)
    else if p == 0 then Some(EmptyUsername)
    else
      var q := NextIndex(e, '.', p + 1);
      if q == |e| then FinalCheck(e, false)
      else if q == p + 1 then Some(EmptyMailServer)
      else if q + 1 == |e| then FinalCheck(e, false)
      else if NextIndex(e, '.', q + 2) < |e| then Some(MultipleDomains)
      else FinalCheck(e, true)
  }

  /** validateEmail: stage 0 reads the username up to the first '@', stage 1 the mail server
      up to the next '.', stage 2 takes one more character, stage 3 refuses any further '.'. */
  method ValidateEmail(email: string) returns (err: Option<string>)
    ensures err == EmailCheck(email)
  {
    var stage := 0;
    var atPos := 0;
    var atCnt := 0;
    ghost var dot := 0;
    var i := 0;
    while i < |email|
      invariant 0 <= i <= |email| && 0 <= stage <= 3
      invariant atCnt == Count(email[..i], '@')
      invariant stage == 0 ==> forall j :: 0 <= j < i ==> email[j] != '@'
      invariant stage >= 1 ==> 0 < atPos < i && email[atPos] == '@'
      invariant stage >= 1 ==> forall j :: 0 <= j < atPos ==> email[j] != '@'
      invariant stage == 1 ==> forall j :: atPos < j < i ==> email[j] != '.'
      invariant stage >= 2 ==> atPos + 1 < dot < i && email[dot] == '.'
      invariant stage >= 2 ==> forall j :: atPos < j < dot ==> email[j] != '.'
      invariant stage == 2 ==> i == dot + 1
      invariant stage == 3 ==> dot + 2 <= i && forall j :: dot + 2 <= j < i ==> email[j] != '.'
    {
      var ch := email[i];
      CountPrefixStep(email, i, '@');
      if ch == '@' {
        atCnt := atCnt + 1;
      }
      if stage == 0 {
        if ch == '@' {
          atPos := i;
          if i == 0 {
            NextIndexUnique(email, '@', 0, 0);
            return Some(EmptyUsername);
          }
          stage := 1;
        }
      } else if stage == 1 {
        if ch == '.' {
          if atPos == i - 1 {
            NextIndexUnique(email, '@', 0, atPos);
            NextIndexUnique(email, '.', atPos + 1, i);
            return Some(EmptyMailServer);
          }
          stage := 2;
          dot := i;
        }
      } else if stage == 2 {
        stage := 3;
      } else {
        if ch == '.' {
          NextIndexUnique(email, '@', 0, atPos);
          NextIndexUnique(email, '.', atPos + 1, dot);
          NextIndexUnique(email, '.', dot + 2, i);
          return Some(MultipleDomains);
        }
      }
      i := i + 1;
    }
    assert email[..i] == email;
    ScanEnd(email, stage, atPos, dot);
    if atCnt != 1 {
      return Some(AtCountWrong);
    }
    if stage != 3 {
      return Some(IncompleteEmail);
    }
    return None;
  }

  /** Where the scan ends without an error, the reference check makes only the final checks. */
  lemma ScanEnd(e: string, stage: int, atPos: nat, dot: nat)
    requires 0 <= stage <= 3
    requires stage == 0 ==> forall j :: 0 <= j < |e| ==> e[j] != '@'
    requires stage >= 1 ==> 0 < atPos < |e| && e[atPos] == '@'
    requires stage >= 1 ==> forall j :: 0 <= j < atPos ==> e[j] != '@'
    requires stage == 1 ==> forall j :: atPos < j < |e| ==> e[j] != '.'
    requires stage >= 2 ==> atPos + 1 < dot < |e| && e[dot] == '.'
    requires stage >= 2 ==> forall j :: atPos < j < dot ==> e[j] != '.'
    requires stage == 2 ==> |e| == dot + 1
    requires stage == 3 ==> dot + 2 <= |e| && forall j :: dot + 2 <= j < |e| ==> e[j] != '.'
    ensures EmailCheck(e) == FinalCheck(e, stage == 3)
  {
    if stage == 0 {
      NextIndexUnique(e, '@', 0, |e|);
    } else {
      NextIndexUnique(e, '@', 0, atPos);
      if stage == 1 {
        NextIndexUnique(e, '.', atPos + 1, |e|);
      } else {
        NextIndexUnique(e, '.', atPos + 1, dot);
        if stage == 3 {
          NextIndexUnique(e, '.', dot + 2, |e|);
        }
      }
    }
  }

  /** The addresses validateEmail accepts: a non-empty username, '@', a non-empty mail server
      without '.', '.', then a non-empty domain holding no further '.' after its first
      character, and no other '@' anywhere. The domain may itself start with '.'. */
  ghost predicate EmailShape(e: string) {
    exists user: string, server: string, domain: string ::
      && e == user + "@" + server + "." + domain
      && user != [] && server != [] && domain != []
      && '@' !in user && '@' !in server && '@' !in domain
      && '.' !in server && '.' !in domain[1..]
  }

  /** The '.' immediately after the first '@' is refused, whatever follows. */
  lemma DotAfterAtRefused(e: string, p: nat)
    requires 0 < p && p + 1 < |e| && e[p] == '@' && e[p + 1] == '.'
    requires forall j :: 0 <= j < p ==> e[j] != '@'
    ensures EmailCheck(e) == Some(EmptyMailServer)
  {
    NextIndexUnique(e, '@', 0, p);
    NextIndexUnique(e, '.', p + 1, p + 1);
  }

  /** Once the character after the first '.' past the '@' is read, any later '.' is refused,
      even when the '@' count is also wrong. */
  lemma SecondDomainRefused(e: string, p: nat, q: nat, k: nat)
    requires 0 < p && p + 1 < q && q + 2 <= k < |e|
    requires e[p] == '@' && e[q] == '.' && e[k] == '.'
    requires forall j :: 0 <= j < p ==> e[j] != '@'
    requires forall j :: p < j < q ==> e[j] != '.'
    ensures EmailCheck(e) == Some(MultipleDomains)
  {
    NextIndexUnique(e, '@', 0, p);
    NextIndexUnique(e, '.', p + 1, q);
    var n := NextIndex(e, '.', q + 2);
    assert n <= k;
  }

  /** validateEmail accepts exactly the addresses of `EmailShape`. */
  lemma EmailCheckShape(e: string)
    ensures EmailCheck(e) == None <==> EmailShape(e)
  {
    if EmailCheck(e) == None {
      AcceptedHasShape(e);
    }
    if EmailShape(e) {
      var user: string, server: string, domain: string :|
        && e == user + "@" + server + "." + domain
        && user != [] && server != [] && domain != []
        && '@' !in user && '@' !in server && '@' !in domain
        && '.' !in server && '.' !in domain[1..];
      ShapeIsAccepted(user, server, domain);
    }
  }

  lemma AcceptedHasShape(e: string)
    requires EmailCheck(e) == None
    ensures EmailShape(e)
  {
    var p := NextIndex(e, '@', 0);
    var q := NextIndex(e, '.', p + 1);
    assert 0 < p && p + 1 < q && q + 1 < |e| && NextIndex(e, '.', q + 2) == |e|;
    var user, server, domain := e[..p], e[p + 1..q], e[q + 1..];
    assert e == user + "@" + server + "." + domain;
    AtOnlyAt(e, p);
    SliceWithout(e, '@', 0, p);
    SliceWithout(e, '@', p + 1, q);
    SliceWithout(e, '@', q + 1, |e|);
    SliceWithout(e, '.', p + 1, q);
    SliceWithout(e, '.', q + 2, |e|);
    assert domain[1..] == e[q + 2..];
    ShapeWitness(e, user, server, domain);
  }

  lemma ShapeWitness(e: string, user: string, server: string, domain: string)
    requires e == user + "@" + server + "." + domain
    requires user != [] && server != [] && domain != []
    requires '@' !in user && '@' !in server && '@' !in domain
    requires '.' !in server && '.' !in domain[1..]
    ensures EmailShape(e)
  {
  }

  lemma SliceWithout(e: string, c: char, a: nat, b: nat)
    requires a <= b <= |e|
    requires forall j :: a <= j < b ==> e[j] != c
    ensures c !in e[a..b]
  {
    assert forall j :: 0 <= j < b - a ==> e[a..b][j] == e[a + j];
  }

  /** With exactly one '@' at `p`, no other position holds '@'. */
  lemma AtOnlyAt(e: string, p: nat)
    requires p < |e| && e[p] == '@' && Count(e, '@') == 1
    ensures forall j :: 0 <= j < |e| && j != p ==> e[j] != '@'
  {
    assert e == e[..p] + [e[p]] + e[p + 1..];
    CountAppend(e[..p] + [e[p]], e[p + 1..], '@');
    CountAppend(e[..p], [e[p]], '@');
    forall j | 0 <= j < |e| && j != p
      ensures e[j] != '@'
    {
      if j < p {
        assert e[j] == e[..p][j];
      } else {
        assert e[j] == e[p + 1..][j - p - 1];
      }
    }
  }

  lemma ShapeIsAccepted(user: string, server: string, domain: string)
    requires user != [] && server != [] && domain != []
    requires '@' !in user && '@' !in server && '@' !in domain
    requires '.' !in server && '.' !in domain[1..]
    ensures EmailCheck(user + "@" + server + "." + domain) == None
  {
    var e := user + "@" + server + "." + domain;
    var p, q := |user|, |user| + 1 + |server|;
    ShapePositions(user, server, domain);
    NextIndexUnique(e, '@', 0, p);
    NextIndexUnique(e, '.', p + 1, q);
    NextIndexUnique(e, '.', q + 2, |e|);
    ShapeCount(user, server, domain);
  }

  lemma ShapePositions(user: string, server: string, domain: string)
    requires '@' !in user && '.' !in server && domain != [] && '.' !in domain[1..]
    ensures var e := user + "@" + server + "." + domain;
            var p, q := |user|, |user| + 1 + |server|;
            && e[p] == '@' && e[q] == '.' && q + 1 < |e|
            && (forall j :: 0 <= j < p ==> e[j] != '@')
            && (forall j :: p < j < q ==> e[j] != '.')
            && (forall j :: q + 2 <= j < |e| ==> e[j] != '.')
  {
    var e := user + "@" + server + "." + domain;
    var p, q := |user|, |user| + 1 + |server|;
    assert forall j :: 0 <= j < p ==> e[j] == user[j];
    assert forall j :: p < j < q ==> e[j] == server[j - p - 1];
    assert forall j :: q + 2 <= j < |e| ==> e[j] == domain[1..][j - q - 2];
  }

  lemma ShapeCount(user: string, server: string, domain: string)
    requires '@' !in user && '@' !in server && '@' !in domain
    ensures Count(user + "@" + server + "." + domain, '@') == 1
  {
    var rest := server + "." + domain;
    assert '@' !in rest;
    assert user + "@" + server + "." + domain == user + ['@'] + rest;
    CountSingle(user, rest, '@');
  }

  lemma CountSingle(x: string, y: string, c: char)
    requires c !in x && c !in y
    ensures Count(x + [c] + y, c) == 1
  {
    CountAppend(x + [c], y, c);
    CountAppend(x, [c], c);
    assert [c][..0] == [];
  }

  /** defaultUserInfoValidate: a name of fewer than two bytes is refused with the name in
      the message; otherwise the email decides. */
  function UserInfoError(name: string, email: string): (r: Option<string>)
    ensures |name| < 2 ==> r == Some("invalid name: " + name)
    ensures |name| >= 2 ==> r == EmailCheck(email)
    ensures r == None <==> |name| >= 2 && EmailShape(email)
  {
    EmailCheckShape(email);
    if |name| < 2 then Some("invalid name: " + name) else EmailCheck(email)
  }

  /** User.Validate. */
  function ValidateUser(u: User): (r: Option<string>)
    ensures r == None <==> |u.name| >= 2 && EmailShape(u.email)
  {
    UserInfoError(u.name, u.email)
  }

  /** CreateUserRequest.Validate. */
  function ValidateCreateUser(req: CreateUserRequest): (r: Option<string>)
    ensures r == None <==> |req.name| >= 2 && EmailShape(req.email)
  {
    UserInfoError(req.name, req.email)
  }

  /** A stored user and a creation request with the same name and email get the same answer. */
  lemma ValidateAgree(u: User, req: CreateUserRequest)
    requires u.name == req.name && u.email == req.email
    ensures ValidateUser(u) == ValidateCreateUser(req)
  {
  }

  /** CreateUserRequest.ToUser: name and email unchanged, both timestamps `now`, the id left
      zero for the database to assign. */
  function ToUser(req: CreateUserRequest, now: int): (u: User)
    ensures u.name == req.name && u.email == req.email
    ensures u.createdAt == now && u.updatedAt == now && u.id == 0
  {
    User(0, req.name, req.email, now, now)
  }

  /** A request and the user made from it get the same validation answer, message included. */
  lemma ToUserKeepsValidation(req: CreateUserRequest, now: int)
    ensures ValidateUser(ToUser(req, now)) == ValidateCreateUser(req)
  {
  }
}
