/** The parts of Go's `strings` package that the labs use, over ASCII text:
    one `char` stands for one byte, so `len(s)` is `|s|`. */
module Strings {

  /** Number of occurrences of `c` in `s` (Go: `strings.Count` for a one-byte separator). */
  function Count(s: string, c: char): (n: nat)
    ensures n <= |s|
    ensures n == 0 <==> c !in s
  {
    if s == [] then 0
    else Count(s[..|s| - 1], c) + (if s[|s| - 1] == c then 1 else 0)
  }

  lemma {:induction false} CountAppend(s: string, t: string, c: char)
    ensures Count(s + t, c) == Count(s, c) + Count(t, c)
    decreases |t|
  {
    if t == [] {
      assert s + t == s;
    } else {
      assert (s + t)[..|s + t| - 1] == s + t[..|t| - 1];
      CountAppend(s, t[..|t| - 1], c);
    }
  }

  /** The count of a one-longer prefix, in the form a left-to-right scan needs. */
  lemma CountPrefixStep(s: string, i: nat, c: char)
    requires i < |s|
    ensures Count(s[..i + 1], c) == Count(s[..i], c) + (if s[i] == c then 1 else 0)
  {
    assert s[..i + 1][..i] == s[..i];
  }

  /** Position of the first `c` in `s` at or after `from`, or `|s|` when there is none
      (Go: `strings.IndexByte(s[from:], c)` shifted by `from`, with -1 read as `|s|`). */
  function NextIndex(s: string, c: char, from: nat): (k: nat)
    requires from <= |s|
    ensures from <= k <= |s|
    ensures k < |s| ==> s[k] == c
    ensures forall j :: from <= j < k ==> s[j] != c
    decreases |s| - from
  {
    if from == |s| then |s| else if s[from] == c then from else NextIndex(s, c, from + 1)
  }

  /** A position holding `c` (or the end) with no `c` between `from` and it is the one found. */
  lemma NextIndexUnique(s: string, c: char, from: nat, k: nat)
    requires from <= k <= |s|
    requires k < |s| ==> s[k] == c
    requires forall j :: from <= j < k ==> s[j] != c
    ensures NextIndex(s, c, from) == k
  {
  }

  /** Go's `strings.Split(s, sep)` for a one-byte separator: the pieces between separators,
      one more piece than there are separators; `Split("", sep) == [""]`. */
  function Split(s: string, sep: char): (parts: seq<string>)
    ensures |parts| == Count(s, sep) + 1
    ensures forall i :: 0 <= i < |parts| ==> sep !in parts[i]
  {
    if s == [] then [[]]
    else
      var rest := Split(s[..|s| - 1], sep);
      if s[|s| - 1] == sep then rest + [[]]
      else rest[..|rest| - 1] + [rest[|rest| - 1] + [s[|s| - 1]]]
  }

  /** Go's `strings.Join(xs, sep)` for a one-byte separator. */
  function Join(xs: seq<string>, sep: char): (s: string)
    ensures |xs| == 1 ==> s == xs[0]
  {
    if xs == [] then []
    else if |xs| == 1 then xs[0]
    else Join(xs[..|xs| - 1], sep) + [sep] + xs[|xs| - 1]
  }

  lemma {:induction false} SplitAppendSep(s: string, sep: char)
    ensures Split(s + [sep], sep) == Split(s, sep) + [[]]
  {
    assert (s + [sep])[..|s + [sep]| - 1] == s;
  }

  /** Appending text free of the separator extends the last piece. */
  lemma {:induction false} SplitAppendPiece(s: string, t: string, sep: char)
    requires sep !in t
    ensures var p := Split(s, sep);
            Split(s + t, sep) == p[..|p| - 1] + [p[|p| - 1] + t]
    decreases |t|
  {
    var p := Split(s, sep);
    if t == [] {
      assert s + t == s;
      assert p[|p| - 1] + t == p[|p| - 1];
    } else {
      var t' := t[..|t| - 1];
      assert t == t' + [t[|t| - 1]];
      SplitAppendPiece(s, t', sep);
      assert (s + t)[..|s + t| - 1] == s + t';
      var q := Split(s + t', sep);
      assert q[..|q| - 1] == p[..|p| - 1];
      assert q[|q| - 1] + [t[|t| - 1]] == p[|p| - 1] + t;
    }
  }

  lemma SplitNoSep(t: string, sep: char)
    requires sep !in t
    ensures Split(t, sep) == [t]
  {
    SplitAppendPiece([], t, sep);
    assert [] + t == t;
  }

  /** Splitting a join gives the pieces back when no piece holds the separator. */
  lemma {:induction false} SplitJoin(xs: seq<string>, sep: char)
    requires |xs| >= 1
    requires forall i :: 0 <= i < |xs| ==> sep !in xs[i]
    ensures Split(Join(xs, sep), sep) == xs
    decreases |xs|
  {
    if |xs| == 1 {
      SplitNoSep(xs[0], sep);
    } else {
      var init, last := xs[..|xs| - 1], xs[|xs| - 1];
      SplitJoin(init, sep);
      SplitJoinStep(Join(init, sep), init, last, sep);
      assert init + [last] == xs;
    }
  }

  lemma SplitJoinStep(j: string, init: seq<string>, last: string, sep: char)
    requires Split(j, sep) == init
    requires sep !in last
    ensures Split(j + [sep] + last, sep) == init + [last]
  {
    SplitAppendSep(j, sep);
    var p := init + [[]];
    assert Split(j + [sep], sep) == p;
    SplitAppendPiece(j + [sep], last, sep);
    assert p[..|p| - 1] == init;
    assert p[|p| - 1] + last == last;
  }

  /** ASCII white space as Go's `strings.TrimSpace` sees it on single bytes. */
  predicate IsSpace(c: char) {
    c == ' ' || c == '\t' || c == '\n' || c == '\U{000B}' || c == '\U{000C}' || c == '\r'
  }

  function TrimLeft(s: string): (r: string)
    ensures |r| <= |s| && r == s[|s| - |r|..]
    ensures r != [] ==> !IsSpace(r[0])
    ensures forall i :: 0 <= i < |s| - |r| ==> IsSpace(s[i])
  {
    if s != [] && IsSpace(s[0]) then TrimLeft(s[1..]) else s
  }

  function TrimRight(s: string): (r: string)
    ensures |r| <= |s| && r == s[..|r|]
    ensures r != [] ==> !IsSpace(r[|r| - 1])
    ensures forall i :: |r| <= i < |s| ==> IsSpace(s[i])
  {
    if s != [] && IsSpace(s[|s| - 1]) then TrimRight(s[..|s| - 1]) else s
  }

  /** Go's `strings.TrimSpace`: drop leading and trailing white space. */
  function TrimSpace(s: string): (r: string)
    ensures |r| <= |s|
    ensures r != [] ==> !IsSpace(r[0]) && !IsSpace(r[|r| - 1])
    ensures s == [] || (!IsSpace(s[0]) && !IsSpace(s[|s| - 1])) ==> r == s
  {
    TrimRight(TrimLeft(s))
  }

  function LowerChar(c: char): (d: char)
    ensures 'A' <= c <= 'Z' ==> 'a' <= d <= 'z'
    ensures !('A' <= c <= 'Z') ==> d == c
  {
    if 'A' <= c <= 'Z' then (c as int + 32) as char else c
  }

  /** Go's `strings.ToLower` on ASCII text. */
  function ToLower(s: string): (r: string)
    ensures |r| == |s|
    ensures forall i :: 0 <= i < |s| ==> r[i] == LowerChar(s[i])
    ensures forall i :: 0 <= i < |s| ==> !('A' <= r[i] <= 'Z')
  {
    seq(|s|, i requires 0 <= i < |s| => LowerChar(s[i]))
  }

  /** Lower-casing a lower-cased string changes nothing. */
  lemma ToLowerIdempotent(s: string)
    ensures ToLower(ToLower(s)) == ToLower(s)
  {
    var l := ToLower(s);
    assert forall i :: 0 <= i < |l| ==> ToLower(l)[i] == l[i];
  }

  /** Lower-casing keeps a trimmed string trimmed: no white-space byte is an upper-case letter. */
  lemma TrimSpaceOfLower(t: string)
    requires t == [] || (!IsSpace(t[0]) && !IsSpace(t[|t| - 1]))
    ensures TrimSpace(ToLower(t)) == ToLower(t)
  {
    var l := ToLower(t);
    if l != [] {
      assert l[0] == LowerChar(t[0]) && l[|l| - 1] == LowerChar(t[|t| - 1]);
      assert !IsSpace(l[0]) && !IsSpace(l[|l| - 1]);
    }
  }
}
