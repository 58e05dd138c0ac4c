/** The statement built by the lab04 user repository's `Update`
    (labs/lab04/backend/repository/user_repository.go): one `column = $n` clause per supplied
    field plus `updated_at`, numbered from 1, then the id as the last placeholder. Running the
    statement and reading the row back are left out. */
module Lab04Repository {
  import opened Wrappers
  import opened Strings
  import opened Strconv

  /** The values handed to the database next to the statement. */
  datatype Arg = TextArg(text: string) | TimeArg(time: int) | IdArg(id: int)

  /** The columns set, in statement order: name and email when supplied, `updated_at` always. */
  function Columns(name: Option<string>, email: Option<string>): (cols: seq<string>)
    ensures |cols| >= 1 && cols[|cols| - 1] == "updated_at"
    ensures ("name" in cols <==> name.Some?) && ("email" in cols <==> email.Some?)
    ensures name.Some? ==> cols[0] == "name"
  {
    (if name.Some? then ["name"] else []) + (if email.Some? then ["email"] else []) + ["updated_at"]
  }

  /** The placeholder clause for column `col` bound to argument `n`. */
  function Clause(col: string, n: int): string {
    col + " = $" + Itoa(n)
  }

  /** The clauses for `cols`, the k-th bound to argument k + 1. */
  function Numbered(cols: seq<string>): (cs: seq<string>)
    ensures |cs| == |cols|
  {
    seq(|cols|, k requires 0 <= k < |cols| => Clause(cols[k], k + 1))
  }

  lemma NumberedAppend(cols: seq<string>, col: string)
    ensures Numbered(cols + [col]) == Numbered(cols) + [Clause(col, |cols| + 1)]
  {
    assert forall k :: 0 <= k < |cols| ==> (cols + [col])[k] == cols[k];
  }

  /** The arguments for the SET clauses, in the same order as `Columns`. */
  function SetArgs(name: Option<string>, email: Option<string>, now: int): (args: seq<Arg>)
    ensures |args| == |Columns(name, email)|
  {
    (if name.Some? then [TextArg(name.value)] else []) + (if email.Some? then [TextArg(email.value)] else [])
      + [TimeArg(now)]
  }

  /** The statement text around the SET list and the WHERE placeholder number. */
  function UpdateQuery(setList: string, whereNo: int): string {
    "UPDATE users\n\t\t\t  SET\n\t\t\t  \t" + setList + "\n\t\t\t  WHERE id = $" + Itoa(whereNo)
      + "\n\t\t\t  RETURNING id, name, email, created_at, updated_at\n\t\t\t "
  }

  /** One `if req.X != nil` block of Update: the clause for `col` takes the current argument
      number, its value is appended to the arguments, and the number moves on by one. */
  method AddClause(clauses: seq<string>, args: seq<Arg>, lastArgNo: int, ghost cols: seq<string>,
                   col: string, arg: Arg)
    returns (clauses': seq<string>, args': seq<Arg>, lastArgNo': int)
    requires clauses == Numbered(cols) && lastArgNo == |cols| + 1
    ensures clauses' == Numbered(cols + [col])
    ensures args' == args + [arg] && lastArgNo' == lastArgNo + 1
  {
    NumberedAppend(cols, col);
    clauses' := clauses + [Clause(col, lastArgNo)];
    args' := args + [arg];
    lastArgNo' := lastArgNo + 1;
  }

  /** The SET part of Update: `lastArgNo` starts at 1 and grows by one for each clause
      appended, so on exit it is the number the id takes. */
  method BuildSet(name: Option<string>, email: Option<string>, now: int)
    returns (clauses: seq<string>, args: seq<Arg>, lastArgNo: int)
    ensures clauses == Numbered(Columns(name, email))
    ensures args == SetArgs(name, email, now)
    ensures lastArgNo == |clauses| + 1 == |args| + 1
  {
    lastArgNo := 1;
    clauses := [];
    args := [];
    ghost var cols: seq<string> := [];
    if name.Some? {
      clauses, args, lastArgNo := AddClause(clauses, args, lastArgNo, cols, "name", TextArg(name.value));
      cols := cols + ["name"];
    }
    ghost var nameCols: seq<string> := if name.Some? then ["name"] else [];
    ghost var nameArgs := if name.Some? then [TextArg(name.value)] else [];
    assert cols == nameCols && args == nameArgs;
    if email.Some? {
      clauses, args, lastArgNo := AddClause(clauses, args, lastArgNo, cols, "email", TextArg(email.value));
      cols := cols + ["email"];
    }
    assert cols == nameCols + (if email.Some? then ["email"] else []);
    assert args == nameArgs + (if email.Some? then [TextArg(email.value)] else []);
    clauses, args, lastArgNo := AddClause(clauses, args, lastArgNo, cols, "updated_at", TimeArg(now));
    cols := cols + ["updated_at"];
    assert cols == Columns(name, email);
    assert args == SetArgs(name, email, now);
  }

  /** The body of Update between the lookup and the database call: the SET clauses joined
      by ',', and the id bound to the number after the last clause. */
  method BuildUpdate(name: Option<string>, email: Option<string>, now: int, id: int)
    returns (query: string, clauses: seq<string>, args: seq<Arg>, whereNo: int)
    ensures clauses == Numbered(Columns(name, email))
    ensures whereNo == |clauses| + 1
    ensures args == SetArgs(name, email, now) + [IdArg(id)] && |args| == whereNo
    ensures query == UpdateQuery(Join(clauses, ','), whereNo)
  {
    var setArgs;
    clauses, setArgs, whereNo := BuildSet(name, email, now);
    query := UpdateQuery(Join(clauses, ','), whereNo);
    args := setArgs + [IdArg(id)];
  }

  lemma ClauseNoComma(col: string, n: int)
    requires ',' !in col
    ensures ',' !in Clause(col, n)
  {
    ItoaNoOther(n, ',');
  }

  lemma ColumnsNoComma(name: Option<string>, email: Option<string>)
    ensures forall k :: 0 <= k < |Columns(name, email)| ==> ',' !in Columns(name, email)[k]
  {
    assert ',' !in "name" && ',' !in "email" && ',' !in "updated_at";
  }

  /** The SET list splits back on ',' into exactly the clauses joined. */
  lemma SetListSplits(name: Option<string>, email: Option<string>)
    ensures var cs := Numbered(Columns(name, email));
            Split(Join(cs, ','), ',') == cs
  {
    var cols := Columns(name, email);
    var cs := Numbered(cols);
    ColumnsNoComma(name, email);
    forall k | 0 <= k < |cs| ensures ',' !in cs[k] {
      ClauseNoComma(cols[k], k + 1);
    }
    SplitJoin(cs, ',');
  }

  /** The number behind a clause's '$' reads back as the argument number it was built with. */
  lemma ClausePlaceholder(col: string, n: int)
    requires MinInt64 <= n <= MaxInt64
    ensures Atoi(Clause(col, n)[|col| + 4..]) == Ok(n)
  {
    assert Clause(col, n)[|col| + 4..] == Itoa(n);
    AtoiItoa(n);
  }

  /** Each clause's placeholder reads back as its 1-based position: the numbering is
      consecutive from $1 with no gap and no repeat. */
  lemma PlaceholderNumbers(name: Option<string>, email: Option<string>, k: nat)
    requires k < |Columns(name, email)|
    ensures var cols := Columns(name, email);
            var c := Numbered(cols)[k];
            |c| >= |cols[k]| + 4 && Atoi(c[|cols[k]| + 4..]) == Ok(k + 1)
  {
    var cols := Columns(name, email);
    assert |cols| <= 3;
    ClausePlaceholder(cols[k], k + 1);
  }
}
