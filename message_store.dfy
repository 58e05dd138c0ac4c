/** The lab02 message history (labs/lab02/backend/message/message.go): an append-only
    log, queried by sender. The mutex is left out; each method is one atomic step. */
module Lab02Message {
  import opened Wrappers

  datatype Message = Message(sender: string, content: string, timestamp: int)

  /** The messages of `s` that a `GetMessages(user)` query keeps, in their original order:
      all of them for the empty user, otherwise those sent by `user`. */
  function BySender(s: seq<Message>, user: string): (r: seq<Message>)
  {
    if s == [] then []
    else BySender(s[..|s| - 1], user) +
         (if user == "" || s[|s| - 1].sender == user then [s[|s| - 1]] else [])
  }

  lemma BySenderStep(s: seq<Message>, i: nat, user: string)
    requires i < |s|
    ensures BySender(s[..i + 1], user) ==
            BySender(s[..i], user) + (if user == "" || s[i].sender == user then [s[i]] else [])
  {
    assert s[..i + 1][..i] == s[..i];
  }

  /** The empty user selects the whole log. */
  lemma {:induction false} BySenderAll(s: seq<Message>)
    ensures BySender(s, "") == s
  {
    if s != [] {
      BySenderAll(s[..|s| - 1]);
    }
  }

  /** A query is never longer than the log. */
  lemma {:induction false} BySenderLength(s: seq<Message>, user: string)
    ensures |BySender(s, user)| <= |s|
  {
    if s != [] {
      BySenderLength(s[..|s| - 1], user);
    }
  }

  /** A named user's query holds only that user's messages, and exactly as many of each
      message as the log holds from that user. */
  lemma {:induction false} BySenderExact(s: seq<Message>, user: string)
    requires user != ""
    ensures forall x :: x in BySender(s, user) ==> x.sender == user
    ensures forall x: Message :: x.sender == user ==> multiset(BySender(s, user))[x] == multiset(s)[x]
  {
    if s != [] {
      var init := s[..|s| - 1];
      BySenderExact(init, user);
      assert s == init + [s[|s| - 1]];
    }
  }

  /** Querying splits over concatenation: the query of a longer log is the query of the
      old log followed by the query of what was appended, so earlier results keep their
      place and their order. */
  lemma {:induction false} BySenderAppend(s: seq<Message>, t: seq<Message>, user: string)
    ensures BySender(s + t, user) == BySender(s, user) + BySender(t, user)
    decreases |t|
  {
    if t == [] {
      assert s + t == s;
    } else {
      var t' := t[..|t| - 1];
      BySenderAppend(s, t', user);
      assert (s + t)[..|s + t| - 1] == s + t';
    }
  }

  class MessageStore {
    var messages: seq<Message>

    /** NewMessageStore: an empty log. */
    constructor ()
      ensures messages == []
    {
      messages := [];
    }

    /** AddMessage: append at the end, keep everything before; never fails. */
    method AddMessage(msg: Message) returns (err: Option<string>)
      modifies this
      ensures messages == old(messages) + [msg]
      ensures err == None
    {
      messages := messages + [msg];
      err := None;
    }

    /** GetMessages: a fresh copy of the matching messages, in append order; never fails
        and changes nothing. */
    method GetMessages(user: string) returns (res: seq<Message>, err: Option<string>)
      ensures res == BySender(messages, user)
      ensures err == None
    {
      res := [];
      for i := 0 to |messages|
        invariant res == BySender(messages[..i], user)
      {
        BySenderStep(messages, i, user);
        if |user| != 0 && messages[i].sender != user {
          continue;
        }
        res := res + [messages[i]];
      }
      assert messages[..|messages|] == messages;
      err := None;
    }
  }
}
