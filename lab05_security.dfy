/** The lab05 password helpers (labs/lab05/backend/security/password.go). bcrypt is not part
    of this model: hashing and comparison are passed in as functions. */
module Lab05Security {
  import opened Wrappers
  import opened Strings
  import opened Strconv

  /** StrCount: a counting loop over the string, equal to `Count`. */
  method StrCount(src: string, ch: char) returns (cnt: nat)
    ensures cnt == Count(src, ch)
    ensures cnt <= |src| && (src == [] ==> cnt == 0)
  {
    cnt := 0;
    var i := 0;
    while i < |src|
      invariant 0 <= i <= |src| && cnt == Count(src[..i], ch)
    {
      CountPrefixStep(src, i, ch);
      if src[i] == ch {
        cnt := cnt + 1;
      }
      i := i + 1;
    }
    assert src[..i] == src;
  }

  predicate IsAsciiLetter(c: char) { 'a' <= c <= 'z' || 'A' <= c <= 'Z' }

  /** The letters the source lists, row by row of a QWERTY keyboard, lower case then upper. */
  const LettersStr: string :=
    "qwertyuiop" + "asdfghjkl" + "zxcvbnm" + ("QWERTYUIOP" + "ASDFGHJKL" + "ZXCVBNM")

  lemma LettersStrExact(c: char)
    ensures c in LettersStr <==> IsAsciiLetter(c)
  {
    LowerRows(c);
    UpperRows(c);
  }

  lemma LowerRows(c: char)
    ensures c in "qwertyuiop" + "asdfghjkl" + "zxcvbnm" <==> 'a' <= c <= 'z'
  {
    assert c in "qwertyuiop" <==> c == 'q' || c == 'w' || c == 'e' || c == 'r' || c == 't' || c == 'y' || c == 'u' || c == 'i' || c == 'o' || c == 'p';
    assert c in "asdfghjkl" <==> c == 'a' || c == 's' || c == 'd' || c == 'f' || c == 'g' || c == 'h' || c == 'j' || c == 'k' || c == 'l';
    assert c in "zxcvbnm" <==> c == 'z' || c == 'x' || c == 'c' || c == 'v' || c == 'b' || c == 'n' || c == 'm';
  }

  lemma UpperRows(c: char)
    ensures c in "QWERTYUIOP" + "ASDFGHJKL" + "ZXCVBNM" <==> 'A' <= c <= 'Z'
  {
    assert c in "QWERTYUIOP" <==> c == 'Q' || c == 'W' || c == 'E' || c == 'R' || c == 'T' || c == 'Y' || c == 'U' || c == 'I' || c == 'O' || c == 'P';
    assert c in "ASDFGHJKL" <==> c == 'A' || c == 'S' || c == 'D' || c == 'F' || c == 'G' || c == 'H' || c == 'J' || c == 'K' || c == 'L';
    assert c in "ZXCVBNM" <==> c == 'Z' || c == 'X' || c == 'C' || c == 'V' || c == 'B' || c == 'N' || c == 'M';
  }

  predicate HasLetter(s: string) { exists i :: 0 <= i < |s| && IsAsciiLetter(s[i]) }

  predicate HasDigit(s: string) { exists i :: 0 <= i < |s| && IsDigit(s[i]) }

  const TooShort: string := "password should be at least 6 characters in length"
  const NeedsLetterAndDigit: string := "password must contain a letter and a digit"

  /** What ValidatePassword answers: the length first, then a letter and a digit together. */
  function PasswordError(password: string): (r: Option<string>)
    ensures r == None <==> |password| >= 6 && HasLetter(password) && HasDigit(password)
    ensures |password| < 6 ==> r == Some(TooShort)
    ensures |password| >= 6 && !(HasLetter(password) && HasDigit(password)) ==> r == Some(NeedsLetterAndDigit)
  {
    if |password| < 6 then Some(TooShort)
    else if !HasLetter(password) || !HasDigit(password) then Some(NeedsLetterAndDigit)
    else None
  }

  /** Whether some character of `chars` occurs in `s`, found as the source does: one
      StrCount per character of `chars`, without stopping early. */
  method ContainsAnyOf(s: string, chars: string) returns (found: bool)
    ensures found <==> exists j :: 0 <= j < |chars| && chars[j] in s
  {
    found := false;
    var j := 0;
    while j < |chars|
      invariant 0 <= j <= |chars|
      invariant found <==> exists k :: 0 <= k < j && chars[k] in s
    {
      var n := StrCount(s, chars[j]);
      if n > 0 {
        found := true;
      }
      j := j + 1;
    }
  }

  lemma ContainsLetters(s: string)
    ensures (exists j :: 0 <= j < |LettersStr| && LettersStr[j] in s) <==> HasLetter(s)
  {
    if exists j :: 0 <= j < |LettersStr| && LettersStr[j] in s {
      var j :| 0 <= j < |LettersStr| && LettersStr[j] in s;
      LettersStrExact(LettersStr[j]);
      var i :| 0 <= i < |s| && s[i] == LettersStr[j];
    }
    if HasLetter(s) {
      var i :| 0 <= i < |s| && IsAsciiLetter(s[i]);
      LettersStrExact(s[i]);
      var j :| 0 <= j < |LettersStr| && LettersStr[j] == s[i];
    }
  }

  lemma ContainsDigits(s: string)
    ensures (exists j :: 0 <= j < |DecimalDigits| && DecimalDigits[j] in s) <==> HasDigit(s)
  {
    if exists j :: 0 <= j < |DecimalDigits| && DecimalDigits[j] in s {
      var j :| 0 <= j < |DecimalDigits| && DecimalDigits[j] in s;
      DecimalDigitsExact(DecimalDigits[j]);
      var i :| 0 <= i < |s| && s[i] == DecimalDigits[j];
    }
    if HasDigit(s) {
      var i :| 0 <= i < |s| && IsDigit(s[i]);
      DecimalDigitsExact(s[i]);
      var j :| 0 <= j < |DecimalDigits| && DecimalDigits[j] == s[i];
    }
  }

  /** ValidatePassword: at least 6 bytes, checked first, then an ASCII letter and a digit. */
  method ValidatePassword(password: string) returns (err: Option<string>)
    ensures err == PasswordError(password)
  {
    if |password| < 6 {
      return Some(TooShort);
    }
    var containsLetter := ContainsAnyOf(password, LettersStr);
    var containsDigit := ContainsAnyOf(password, DecimalDigits);
    ContainsLetters(password);
    ContainsDigits(password);
    if !containsLetter || !containsDigit {
      return Some(NeedsLetterAndDigit);
    }
    return None;
  }

  /** HashPassword: the empty password is refused before bcrypt is asked. */
  function HashPassword(password: string, bcrypt: string -> Result<string, string>): (r: Result<string, string>)
    ensures password == [] ==> r == Err("empty password provided: HashPassword()")
    ensures password != [] ==> r == bcrypt(password)
  {
    if password == [] then Err("empty password provided: HashPassword()") else bcrypt(password)
  }

  /** VerifyPassword: false when either side is empty, otherwise bcrypt's comparison. */
  function VerifyPassword(password: string, hash: string, matches: (string, string) -> bool): (ok: bool)
    ensures ok <==> password != [] && hash != [] && matches(hash, password)
  {
    if password == [] || hash == [] then false else matches(hash, password)
  }
}
