/** The lab05 user entity (labs/lab05/backend/userdomain/user.go): name, email and password
    rules, validation of a whole user, and the two in-place updates. */
module Lab05UserDomain {
  import opened Wrappers
  import opened Strings
  import opened Strconv

  const InvalidNameLength: string := "invalid name length"
  const EmptyEmail: string := "empty email provided: ValidateEmail()"
  const BadEmailFormat: string := "invalid email format: ValidateEmail()"
  const InvalidPassword: string := "invalid password"
  const InvalidUserData: string := "invalid user data"

  /** ValidateName: the name without surrounding white space must be 2 to 50 bytes long. */
  function NameError(name: string): (r: Option<string>)
    ensures r == None <==> 2 <= |TrimSpace(name)| <= 50
    ensures r != None ==> r == Some(InvalidNameLength)
  {
    var t := TrimSpace(name);
    if |t| < 2 || |t| > 50 then Some(InvalidNameLength) else None
  }

  // The character classes of the email pattern ^[a-zA-Z0-9._%+-]+@[a-zA-Z0-9.-]+\.[a-zA-Z]{2,}$

  predicate IsLetter(c: char) { 'a' <= c <= 'z' || 'A' <= c <= 'Z' }

  predicate IsLocalChar(c: char) {
    IsLetter(c) || IsDigit(c) || c == '.' || c == '_' || c == '%' || c == '+' || c == '-'
  }

  predicate IsDomainChar(c: char) { IsLetter(c) || IsDigit(c) || c == '.' || c == '-' }

  predicate AllLocal(s: string) { forall i :: 0 <= i < |s| ==> IsLocalChar(s[i]) }

  predicate AllDomain(s: string) { forall i :: 0 <= i < |s| ==> IsDomainChar(s[i]) }

  predicate AllLetters(s: string) { forall i :: 0 <= i < |s| ==> IsLetter(s[i]) }

  /** The strings the email pattern matches, as the pattern reads: one or more local
      characters, '@', one or more domain characters, '.', two or more letters. */
  ghost predicate EmailPattern(s: string) {
    exists local: string, domain: string, tld: string ::
      && s == local + "@" + domain + "." + tld
      && local != [] && AllLocal(local)
      && domain != [] && AllDomain(domain)
      && |tld| >= 2 && AllLetters(tld)
  }

  /** The length of the run of letters that ends `s`. */
  function TrailingLetters(s: string): (k: nat)
    ensures k <= |s|
    ensures forall i :: |s| - k <= i < |s| ==> IsLetter(s[i])
    ensures k < |s| ==> !IsLetter(s[|s| - k - 1])
  {
    if s == [] || !IsLetter(s[|s| - 1]) then 0 else 1 + TrailingLetters(s[..|s| - 1])
  }

  /** A deterministic matcher for the pattern: the '@' must be the first one, and the
      top-level domain is the whole run of letters at the end, behind a '.'. */
  predicate MatchesEmail(s: string) {
    var p := NextIndex(s, '@', 0);
    && 0 < p < |s| && AllLocal(s[..p])
    && var d := s[p + 1..];
       var k := TrailingLetters(d);
       && k >= 2 && k + 2 <= |d| && d[|d| - k - 1] == '.' && AllDomain(d[..|d| - k - 1])
  }

  lemma {:induction false} TrailingLettersUnique(s: string, k: nat)
    requires k <= |s|
    requires forall i :: |s| - k <= i < |s| ==> IsLetter(s[i])
    requires k < |s| ==> !IsLetter(s[|s| - k - 1])
    ensures TrailingLetters(s) == k
    decreases |s|
  {
    if k > 0 {
      var s' := s[..|s| - 1];
      assert forall i :: |s'| - (k - 1) <= i < |s'| ==> s'[i] == s[i];
      TrailingLettersUnique(s', k - 1);
    }
  }

  /** The matcher accepts exactly what the pattern matches. */
  lemma MatchesEmailPattern(s: string)
    ensures MatchesEmail(s) <==> EmailPattern(s)
  {
    if MatchesEmail(s) {
      MatchHasPattern(s);
    }
    if EmailPattern(s) {
      var local: string, domain: string, tld: string :|
        && s == local + "@" + domain + "." + tld
        && local != [] && AllLocal(local)
        && domain != [] && AllDomain(domain)
        && |tld| >= 2 && AllLetters(tld);
      PatternMatches(local, domain, tld);
    }
  }

  lemma MatchHasPattern(s: string)
    requires MatchesEmail(s)
    ensures EmailPattern(s)
  {
    var p := NextIndex(s, '@', 0);
    var d := s[p + 1..];
    var k := TrailingLetters(d);
    var local, domain, tld := s[..p], d[..|d| - k - 1], d[|d| - k..];
    assert AllDomain(domain) && AllLocal(local);
    assert AllLetters(tld) by { assert forall i :: 0 <= i < |tld| ==> tld[i] == d[|d| - k + i]; }
    assert d == domain + "." + tld;
    assert s == local + "@" + domain + "." + tld;
    PatternWitness(s, local, domain, tld);
  }

  lemma PatternWitness(s: string, local: string, domain: string, tld: string)
    requires s == local + "@" + domain + "." + tld
    requires local != [] && AllLocal(local)
    requires domain != [] && AllDomain(domain)
    requires |tld| >= 2 && AllLetters(tld)
    ensures EmailPattern(s)
  {
  }

  lemma PatternMatches(local: string, domain: string, tld: string)
    requires local != [] && AllLocal(local)
    requires domain != [] && AllDomain(domain)
    requires |tld| >= 2 && AllLetters(tld)
    ensures MatchesEmail(local + "@" + domain + "." + tld)
  {
    var s := local + "@" + domain + "." + tld;
    var p := |local|;
    assert forall j :: 0 <= j < p ==> s[j] == local[j];
    NextIndexUnique(s, '@', 0, p);
    assert s[..p] == local;
    var d := s[p + 1..];
    assert d == domain + "." + tld;
    assert forall i :: |d| - |tld| <= i < |d| ==> d[i] == tld[i - (|d| - |tld|)];
    TrailingLettersUnique(d, |tld|);
    assert d[..|d| - |tld| - 1] == domain;
  }

  /** ValidateEmail: the input is trimmed and lower-cased first; an empty result and a
      result the pattern does not match are refused with different messages. */
  function EmailError(email: string): (r: Option<string>)
    ensures TrimSpace(email) == [] <==> r == Some(EmptyEmail)
    ensures TrimSpace(email) != [] && !MatchesEmail(ToLower(TrimSpace(email))) <==> r == Some(BadEmailFormat)
    ensures r == None <==> TrimSpace(email) != [] && MatchesEmail(ToLower(TrimSpace(email)))
  {
    var e := ToLower(TrimSpace(email));
    if e == [] then Some(EmptyEmail)
    else if !MatchesEmail(e) then Some(BadEmailFormat)
    else None
  }

  /** ValidateEmail accepts exactly the inputs whose normalised form the pattern matches. */
  lemma EmailErrorPattern(email: string)
    ensures EmailError(email) == None <==> EmailPattern(ToLower(TrimSpace(email)))
  {
    MatchesEmailPattern(ToLower(TrimSpace(email)));
  }

  predicate HasLower(s: string) { exists i :: 0 <= i < |s| && 'a' <= s[i] <= 'z' }

  predicate HasUpper(s: string) { exists i :: 0 <= i < |s| && 'A' <= s[i] <= 'Z' }

  predicate HasDigit(s: string) { exists i :: 0 <= i < |s| && IsDigit(s[i]) }

  /** What ValidatePassword answers: at least 8 bytes with a lower-case letter, an upper-case
      letter and a digit; every failure gives the same message. */
  function PasswordError(password: string): (r: Option<string>)
    ensures r == None <==> |password| >= 8 && HasLower(password) && HasUpper(password) && HasDigit(password)
    ensures r != None ==> r == Some(InvalidPassword)
  {
    if |password| < 8 || !HasLower(password) || !HasUpper(password) || !HasDigit(password)
    then Some(InvalidPassword) else None
  }

  /** The characters from `lo` to `hi` in order, appended one at a time; the counter is a
      rune, an integer. */
  method CharRange(lo: char, hi: char) returns (r: seq<char>)
    requires lo <= hi && hi as int < 0xD800
    ensures forall c :: c in r <==> lo <= c <= hi
  {
    r := [];
    var symbol: int := lo as int;
    while symbol <= hi as int
      invariant lo as int <= symbol <= hi as int + 1
      invariant forall c :: c in r <==> lo as int <= c as int < symbol
      decreases hi as int - symbol
    {
      r := r + [symbol as char];
      symbol := symbol + 1;
    }
  }

  /** One pass of ValidatePassword's nested loops: stop at the first byte of `s` that equals
      some character of `chars`. */
  method HasAnyOf(s: string, chars: seq<char>) returns (found: bool)
    ensures found <==> exists i :: 0 <= i < |s| && s[i] in chars
  {
    found := false;
    var i := 0;
    while i < |s|
      invariant 0 <= i <= |s|
      invariant !found
      invariant forall k :: 0 <= k < i ==> s[k] !in chars
    {
      var j := 0;
      while j < |chars|
        invariant 0 <= j <= |chars| && !found
        invariant forall m :: 0 <= m < j ==> s[i] != chars[m]
      {
        if s[i] == chars[j] {
          found := true;
          break;
        }
        j := j + 1;
      }
      if found {
        break;
      }
      i := i + 1;
    }
  }

  /** ValidatePassword: the length first, then a lower-case letter, an upper-case letter and
      a digit, each searched for separately. */
  method ValidatePassword(password: string) returns (err: Option<string>)
    ensures err == PasswordError(password)
  {
    var lowercaseLetters := CharRange('a', 'z');
    var uppercaseLetters := CharRange('A', 'Z');
    if |password| < 8 {
      return Some(InvalidPassword);
    }
    var hasLowercaseLetter := HasAnyOf(password, lowercaseLetters);
    if !hasLowercaseLetter {
      return Some(InvalidPassword);
    }
    var hasUppercaseLetter := HasAnyOf(password, uppercaseLetters);
    if !hasUppercaseLetter {
      return Some(InvalidPassword);
    }
    var hasDigit := HasAnyOf(password, DecimalDigits);
    forall c ensures c in DecimalDigits <==> IsDigit(c) {
      DecimalDigitsExact(c);
    }
    if !hasDigit {
      return Some(InvalidPassword);
    }
    return None;
  }

  /** What User.Validate answers, stated on the three fields it checks: the user passes
      exactly when the name, email and password validators all do, and any refusal is
      reported as "invalid user data". */
  function UserDataError(name: string, email: string, password: string): (r: Option<string>)
    ensures r == None <==> NameError(name) == None && EmailError(email) == None && PasswordError(password) == None
    ensures r != None ==> r == Some(InvalidUserData)
  {
    if NameError(name) != None || EmailError(email) != None || PasswordError(password) != None
    then Some(InvalidUserData) else None
  }

  /** What UpdateEmail stores: the trimmed, lower-cased input. */
  function NormalizeEmail(email: string): string {
    ToLower(TrimSpace(email))
  }

  /** A stored (normalised) email normalises to itself. */
  lemma NormalizeEmailIdempotent(email: string)
    ensures NormalizeEmail(NormalizeEmail(email)) == NormalizeEmail(email)
  {
    var t := TrimSpace(email);
    TrimSpaceOfLower(t);
    ToLowerIdempotent(t);
  }

  /** The stored email gets the same answer from ValidateEmail as the input it came from. */
  lemma EmailErrorNormalized(email: string)
    ensures EmailError(NormalizeEmail(email)) == EmailError(email)
  {
    NormalizeEmailIdempotent(email);
  }

  /** What UpdateEmail stores keeps a valid user valid. */
  lemma UpdateEmailKeepsValid(name: string, email: string, password: string, newEmail: string)
    requires UserDataError(name, email, password) == None
    requires EmailError(newEmail) == None
    ensures UserDataError(name, NormalizeEmail(newEmail), password) == None
  {
    EmailErrorNormalized(newEmail);
  }

  /** What UpdateName stores keeps a valid user valid. */
  lemma UpdateNameKeepsValid(name: string, email: string, password: string, newName: string)
    requires UserDataError(name, email, password) == None
    requires NameError(newName) == None
    ensures UserDataError(TrimSpace(newName), email, password) == None
  {
    assert TrimSpace(TrimSpace(newName)) == TrimSpace(newName);
  }

  class User {
    var id: int
    var email: string
    var name: string
    var password: string
    var createdAt: int
    var updatedAt: int

    /** The user passes its own validation. */
    predicate Valid()
      reads this
    {
      UserDataError(name, email, password) == None
    }

    constructor (id: int, email: string, name: string, password: string, createdAt: int, updatedAt: int)
      ensures this.id == id && this.email == email && this.name == name && this.password == password
      ensures this.createdAt == createdAt && this.updatedAt == updatedAt
    {
      this.id := id;
      this.email := email;
      this.name := name;
      this.password := password;
      this.createdAt := createdAt;
      this.updatedAt := updatedAt;
    }

    /** Validate: "invalid user data" exactly when one of the three validators objects. */
    method Validate() returns (err: Option<string>)
      ensures err == UserDataError(name, email, password)
    {
      var nameErr := NameError(name);
      var emailErr := EmailError(email);
      var pwdErr := ValidatePassword(password);
      if nameErr != None || emailErr != None || pwdErr != None {
        return Some(InvalidUserData);
      }
      return None;
    }

    /** UpdateName: an invalid name changes nothing; otherwise the trimmed name is stored
        and the update time set. */
    method UpdateName(newName: string, now: int) returns (err: Option<string>)
      modifies this`name, this`updatedAt
      ensures err == NameError(newName)
      ensures err != None ==> name == old(name) && updatedAt == old(updatedAt)
      ensures err == None ==> name == TrimSpace(newName) && updatedAt == now
    {
      err := NameError(newName);
      if err != None {
        return;
      }
      name := TrimSpace(newName);
      updatedAt := now;
    }

    /** UpdateEmail: an invalid email changes nothing; otherwise the trimmed, lower-cased
        email is stored and the update time set. */
    method UpdateEmail(newEmail: string, now: int) returns (err: Option<string>)
      modifies this`email, this`updatedAt
      ensures err == EmailError(newEmail)
      ensures err != None ==> email == old(email) && updatedAt == old(updatedAt)
      ensures err == None ==> email == NormalizeEmail(newEmail) && updatedAt == now
    {
      err := EmailError(newEmail);
      if err != None {
        return;
      }
      email := NormalizeEmail(newEmail);
      updatedAt := now;
    }
  }

  /** NewUser: no user and the validation error when validation fails; otherwise a new,
      valid user stamped with `now` on both timestamps. */
  method NewUser(email: string, name: string, password: string, now: int) returns (u: User?, err: Option<string>)
    ensures err == UserDataError(name, email, password)
    ensures u == null <==> err != None
    ensures u != null ==> fresh(u) && u.Valid()
    ensures u != null ==> u.email == email && u.name == name && u.password == password
    ensures u != null ==> u.id == 0 && u.createdAt == now && u.updatedAt == now
  {
    var res := new User(0, email, name, password, 0, 0);
    err := res.Validate();
    if err != None {
      return null, err;
    }
    res.createdAt := now;
    res.updatedAt := now;
    return res, None;
  }
}
