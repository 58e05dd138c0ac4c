/** The lab01 user record (labs/lab01/backend/user/user.go): the counter-based email check,
    validation in a fixed order and the one-line text form. */
module Lab01User {
  import opened Wrappers
  import opened Strings
  import opened Strconv

  datatype User = User(name: string, age: int, email: string)

  /** The reasons a user is refused. The source names its first one `ErrEmptyName` without
      declaring it; it is kept here as the value the validation evidently means. */
  datatype UserError = EmptyName | InvalidAge | InvalidEmail

  /** Dots standing after the first '@' of `s`. */
  function DotsAfterAt(s: string): (n: nat)
    ensures n <= |s|
  {
    if s == [] then 0
    else DotsAfterAt(s[..|s| - 1]) + (if s[|s| - 1] == '.' && '@' in s[..|s| - 1] then 1 else 0)
  }

  /** What IsValidEmail accepts, in terms of counts: non-empty, not starting with '@',
      one '@', and one '.' after it. */
  predicate EmailAccepted(e: string) {
    |e| > 0 && e[0] != '@' && Count(e, '@') == 1 && DotsAfterAt(e) == 1
  }

  /** The same set of addresses, by shape: a non-empty local part without '@', the '@',
      then a domain without '@' holding exactly one '.'. Dots in the local part are free. */
  ghost predicate EmailShape(e: string) {
    exists local: string, domain: string ::
      && e == local + "@" + domain
      && local != [] && '@' !in local
      && '@' !in domain && Count(domain, '.') == 1
  }

  /** IsValidEmail: a left-to-right scan counting '@'s and the '.'s after the first one,
      stopping early on a leading '@', a second '@' or a second '.' after the '@'. */
  method IsValidEmail(email: string) returns (ok: bool)
    ensures ok == EmailAccepted(email)
  {
    if |email| == 0 {
      return false;
    }
    var readCnt := 0;
    var atCnt := 0;
    var dotsCnt := 0;
    var i := 0;
    while i < |email|
      invariant 0 <= i <= |email| && readCnt == i
      invariant atCnt == Count(email[..i], '@') && dotsCnt == DotsAfterAt(email[..i])
      invariant atCnt <= 1 && (atCnt > 0 ==> dotsCnt <= 1) && dotsCnt <= 1
      invariant i > 0 ==> email[0] != '@'
    {
      var ch := email[i];
      CountPrefixStep(email, i, '@');
      DotsPrefixStep(email, i);
      readCnt := readCnt + 1;
      if ch == '@' {
        atCnt := atCnt + 1;
        if atCnt > 1 || readCnt == 1 {
          CountPrefixMono(email, i + 1, '@');
          return false;
        }
      }
      if ch == '.' {
        if atCnt != 0 {
          dotsCnt := dotsCnt + 1;
        }
        if atCnt > 0 && dotsCnt > 1 {
          DotsPrefixMono(email, i + 1);
          return false;
        }
      }
      i := i + 1;
    }
    assert email[..i] == email;
    if atCnt == 0 || dotsCnt == 0 {
      return false;
    }
    return true;
  }

  lemma DotsPrefixStep(s: string, i: nat)
    requires i < |s|
    ensures DotsAfterAt(s[..i + 1]) == DotsAfterAt(s[..i]) + (if s[i] == '.' && '@' in s[..i] then 1 else 0)
  {
    assert s[..i + 1][..i] == s[..i];
  }

  lemma CountPrefixMono(s: string, i: nat, c: char)
    requires i <= |s|
    ensures Count(s[..i], c) <= Count(s, c)
  {
    CountAppend(s[..i], s[i..], c);
    assert s[..i] + s[i..] == s;
  }

  lemma {:induction false} DotsPrefixMono(s: string, i: nat)
    requires i <= |s|
    ensures DotsAfterAt(s[..i]) <= DotsAfterAt(s)
    decreases |s| - i
  {
    if i < |s| {
      DotsPrefixStep(s, i);
      DotsPrefixMono(s, i + 1);
    } else {
      assert s[..i] == s;
    }
  }

  lemma {:induction false} NoAtNoDots(s: string)
    requires '@' !in s
    ensures DotsAfterAt(s) == 0
    decreases |s|
  {
    if s != [] {
      NoAtNoDots(s[..|s| - 1]);
    }
  }

  /** Behind a local part without '@', the dots counted are exactly the domain's. */
  lemma {:induction false} DotsAfterAtSplit(local: string, domain: string)
    requires '@' !in local
    ensures DotsAfterAt(local + "@" + domain) == Count(domain, '.')
    decreases |domain|
  {
    var e := local + "@" + domain;
    if domain == [] {
      assert e == local + "@";
      assert e[..|e| - 1] == local;
      NoAtNoDots(local);
    } else {
      var d := domain[..|domain| - 1];
      DotsAfterAtSplit(local, d);
      assert e[..|e| - 1] == local + "@" + d;
      assert '@' in local + "@" + d by { assert (local + "@" + d)[|local|] == '@'; }
    }
  }

  /** The counting check and the shape describe the same addresses. */
  lemma EmailAcceptedShape(e: string)
    ensures EmailAccepted(e) <==> EmailShape(e)
  {
    if EmailAccepted(e) {
      AcceptedHasShape(e);
    }
    if EmailShape(e) {
      var local: string, domain: string :|
        && e == local + "@" + domain
        && local != [] && '@' !in local
        && '@' !in domain && Count(domain, '.') == 1;
      ShapeIsAccepted(local, domain);
    }
  }

  lemma AcceptedHasShape(e: string)
    requires EmailAccepted(e)
    ensures EmailShape(e)
  {
    var p := NextIndex(e, '@', 0);
    assert p < |e| by { assert '@' in e; }
    var local, domain := e[..p], e[p + 1..];
    assert '@' !in local by { assert forall j :: 0 <= j < p ==> local[j] == e[j]; }
    assert e == local + "@" + domain;
    CountParts(local, domain);
    DotsAfterAtSplit(local, domain);
    assert local != [] by { assert p > 0; }
  }

  lemma ShapeIsAccepted(local: string, domain: string)
    requires local != [] && '@' !in local
    requires '@' !in domain && Count(domain, '.') == 1
    ensures EmailAccepted(local + "@" + domain)
  {
    var e := local + "@" + domain;
    CountParts(local, domain);
    DotsAfterAtSplit(local, domain);
    assert e[0] == local[0];
  }

  lemma CountParts(local: string, domain: string)
    ensures Count(local + "@" + domain, '@') == Count(local, '@') + 1 + Count(domain, '@')
  {
    CountAppend(local, "@", '@');
    CountAppend(local + "@", domain, '@');
    assert Count("@", '@') == 1;
  }

  /** Validate: the name is checked first, then the age range [0, 150], then the email. */
  function ValidationError(u: User): (err: Option<UserError>)
    ensures err == None <==> u.name != "" && 0 <= u.age <= 150 && EmailShape(u.email)
    ensures u.name == "" ==> err == Some(EmptyName)
    ensures u.name != "" && (u.age < 0 || u.age > 150) ==> err == Some(InvalidAge)
    ensures err == Some(InvalidEmail) <==> u.name != "" && 0 <= u.age <= 150 && !EmailShape(u.email)
  {
    EmailAcceptedShape(u.email);
    if |u.name| == 0 then Some(EmptyName)
    else if u.age < 0 || u.age > 150 then Some(InvalidAge)
    else if EmailAccepted(u.email) then None
    else Some(InvalidEmail)
  }

  /** NewUser: the user as given, together with its validation result. */
  function NewUser(name: string, age: int, email: string): (r: (User, Option<UserError>))
    ensures r.0.name == name && r.0.age == age && r.0.email == email
    ensures r.1 == None <==> name != "" && 0 <= age <= 150 && EmailShape(email)
  {
    var u := User(name, age, email);
    (u, ValidationError(u))
  }

  /** String: name, a space, the decimal age, a space, the email. */
  function ToString(u: User): (s: string)
    ensures |s| >= |u.name| + |u.email| + 3
    ensures s[..|u.name|] == u.name && s[|s| - |u.email|..] == u.email
  {
    u.name + " " + Itoa(u.age) + " " + u.email
  }

  /** When name and email hold no space, the three fields can be read back from the text. */
  lemma ToStringFields(u: User)
    requires ' ' !in u.name && ' ' !in u.email
    requires MinInt64 <= u.age <= MaxInt64
    ensures Split(ToString(u), ' ') == [u.name, Itoa(u.age), u.email]
    ensures Atoi(Split(ToString(u), ' ')[1]) == Ok(u.age)
  {
    SplitNoSep(u.name, ' ');
    ItoaNoOther(u.age, ' ');
    SplitJoinStep(u.name, [u.name], Itoa(u.age), ' ');
    SplitJoinStep(u.name + [' '] + Itoa(u.age), [u.name, Itoa(u.age)], u.email, ' ');
    assert u.name + [' '] + Itoa(u.age) + [' '] + u.email == ToString(u);
    AtoiItoa(u.age);
  }
}
