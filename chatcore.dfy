/** The chat router of lab02 (labs/lab02/backend/chatcore/chatcore.go), run sequentially:
    every locked section is one atomic method, every Go channel is a mailbox identity
    whose queued messages the broker's `mailboxes` map holds, and the context is the
    error `ctx.Err()` reports. */
module Lab02ChatCore {
  import opened Wrappers
  import opened GoContext

  datatype Message = Message(sender: string, recipient: string, content: string,
                             broadcast: bool, timestamp: int)

  /** The identity of a receiving channel (`chan Message`); two user ids may share one. */
  type Mailbox = nat

  /** `k` copies of `msg`. */
  function Copies(msg: Message, k: nat): (r: seq<Message>)
    ensures |r| == k
    ensures forall i :: 0 <= i < k ==> r[i] == msg
  {
    if k == 0 then [] else Copies(msg, k - 1) + [msg]
  }

  /** The user ids registered with mailbox `m`. */
  ghost function HoldersOf(users: map<string, Mailbox>, m: Mailbox): set<string>
  {
    set id | id in users && users[id] == m
  }

  /** How many copies of `msg` one `SendMessage` pushes onto mailbox `m`: a broadcast
      pushes one per registry entry holding `m`, a unicast one if the recipient is
      registered with `m`, and a message to an unknown recipient is dropped. */
  ghost function CopiesFor(users: map<string, Mailbox>, msg: Message, m: Mailbox): nat
  {
    if msg.broadcast then |HoldersOf(users, m)|
    else if msg.recipient in users && users[msg.recipient] == m then 1
    else 0
  }

  /** The mailboxes after one `SendMessage` of `msg` from `before`: same channels, each
      extended by its copies of `msg`. */
  ghost predicate Delivered(users: map<string, Mailbox>, before: map<Mailbox, seq<Message>>,
                            msg: Message, after: map<Mailbox, seq<Message>>)
  {
    && after.Keys == before.Keys
    && forall m :: m in after ==> after[m] == before[m] + Copies(msg, CopiesFor(users, msg, m))
  }

  /** Every registered user's channel is one the broker knows. */
  ghost predicate Covers(users: map<string, Mailbox>, boxes: map<Mailbox, seq<Message>>)
  {
    forall id :: id in users ==> users[id] in boxes
  }

  /** No mailbox is registered under two user ids. */
  ghost predicate Injective(users: map<string, Mailbox>)
  {
    forall a, b :: a in users && b in users && a != b ==> users[a] != users[b]
  }

  /** With one mailbox per user, a broadcast gives every registered user exactly one
      copy, and mailboxes nobody is registered with receive nothing. */
  lemma BroadcastOnePerUser(users: map<string, Mailbox>, msg: Message)
    requires Injective(users) && msg.broadcast
    ensures forall id :: id in users ==> CopiesFor(users, msg, users[id]) == 1
    ensures forall m :: m !in users.Values ==> CopiesFor(users, msg, m) == 0
  {
    forall id | id in users
      ensures CopiesFor(users, msg, users[id]) == 1
    {
      assert HoldersOf(users, users[id]) == {id};
    }
    forall m | m !in users.Values
      ensures CopiesFor(users, msg, m) == 0
    {
      assert HoldersOf(users, m) == {};
    }
  }

  /** A mailbox registered under two user ids receives at least two copies of a
      broadcast: one per registry entry, not one per channel. */
  lemma BroadcastSharedMailbox(users: map<string, Mailbox>, msg: Message, a: string, b: string)
    requires msg.broadcast
    requires a in users && b in users && a != b && users[a] == users[b]
    ensures CopiesFor(users, msg, users[a]) >= 2
  {
    assert {a, b} <= HoldersOf(users, users[a]);
    assert |{a, b}| == 2;
    SubsetCard({a, b}, HoldersOf(users, users[a]));
  }

  lemma SubsetCard<T>(a: set<T>, b: set<T>)
    requires a <= b
    ensures |a| <= |b|
  {
    assert b == a + (b - a);
  }

  /** How many copies of a broadcast mailbox `m` has received once only `pending` is left. */
  ghost function Visited(users: map<string, Mailbox>, pending: set<string>, m: Mailbox): nat
  {
    |HoldersOf(users, m) - pending|
  }

  /** The broadcast loop's invariant: each mailbox holds one copy per registry entry
      visited so far, i.e. per entry not in `pending`. */
  ghost predicate PartlyDelivered(users: map<string, Mailbox>, before: map<Mailbox, seq<Message>>,
                                  msg: Message, pending: set<string>,
                                  after: map<Mailbox, seq<Message>>)
  {
    && after.Keys == before.Keys
    && forall m :: m in after ==> after[m] == before[m] + Copies(msg, Visited(users, pending, m))
  }

  /** One turn of the broadcast loop keeps its invariant: the mailbox of `id` gains a copy. */
  lemma FanoutStep(users: map<string, Mailbox>, msg: Message, before: map<Mailbox, seq<Message>>,
                   prev: map<Mailbox, seq<Message>>, pending: set<string>, id: string)
    requires id in pending && pending <= users.Keys && users[id] in prev
    requires PartlyDelivered(users, before, msg, pending, prev)
    ensures PartlyDelivered(users, before, msg, pending - {id}, prev[users[id] := prev[users[id]] + [msg]])
  {
    var next := prev[users[id] := prev[users[id]] + [msg]];
    forall m | m in next
      ensures next[m] == before[m] + Copies(msg, Visited(users, pending - {id}, m))
    {
      HoldersStep(users, pending, id, m);
      if m == users[id] {
        PushOneMore(before[m], msg, Visited(users, pending, m));
      }
    }
  }

  lemma PushOneMore(s: seq<Message>, msg: Message, k: nat)
    ensures (s + Copies(msg, k)) + [msg] == s + Copies(msg, k + 1)
  {
  }

  /** Once no registry entry is pending, the broadcast is complete. */
  lemma FanoutDone(users: map<string, Mailbox>, msg: Message, before: map<Mailbox, seq<Message>>,
                   after: map<Mailbox, seq<Message>>)
    requires msg.broadcast && PartlyDelivered(users, before, msg, {}, after)
    ensures Delivered(users, before, msg, after)
  {
    forall m | m in after ensures Visited(users, {}, m) == CopiesFor(users, msg, m) {
      assert HoldersOf(users, m) - {} == HoldersOf(users, m);
    }
  }

  /** Before the loop nothing has been visited. */
  lemma FanoutStart(users: map<string, Mailbox>, msg: Message, before: map<Mailbox, seq<Message>>)
    ensures PartlyDelivered(users, before, msg, users.Keys, before)
  {
    forall m | m in before ensures Visited(users, users.Keys, m) == 0 {
      assert HoldersOf(users, m) - users.Keys == {};
    }
  }

  /** Visiting `id` in the broadcast loop adds one holder of `id`'s mailbox and no other. */
  lemma HoldersStep(users: map<string, Mailbox>, pending: set<string>, id: string, m: Mailbox)
    requires id in pending && pending <= users.Keys
    ensures Visited(users, pending - {id}, m) ==
            Visited(users, pending, m) + (if users[id] == m then 1 else 0)
  {
    if users[id] == m {
      assert HoldersOf(users, m) - (pending - {id}) == (HoldersOf(users, m) - pending) + {id};
    } else {
      assert HoldersOf(users, m) - (pending - {id}) == HoldersOf(users, m) - pending;
    }
  }

  /** A unicast to a registered user puts exactly one copy in that user's mailbox and
      none anywhere else. */
  lemma UnicastRegistered(users: map<string, Mailbox>, msg: Message)
    requires !msg.broadcast && msg.recipient in users
    ensures CopiesFor(users, msg, users[msg.recipient]) == 1
    ensures forall m :: m != users[msg.recipient] ==> CopiesFor(users, msg, m) == 0
  {
  }

  /** A unicast to an unregistered user puts nothing anywhere. */
  lemma UnicastUnregistered(users: map<string, Mailbox>, msg: Message)
    requires !msg.broadcast && msg.recipient !in users
    ensures forall m :: CopiesFor(users, msg, m) == 0
  {
  }

  /** The broadcast loop of SendMessage: one push per registry entry, all under one read
      lock, so the recipients are the registry as it stood when the loop began. */
  method PushToAll(users: map<string, Mailbox>, boxes: map<Mailbox, seq<Message>>, msg: Message)
    returns (after: map<Mailbox, seq<Message>>)
    requires Covers(users, boxes) && msg.broadcast
    ensures Delivered(users, boxes, msg, after)
  {
    var pending := users.Keys;
    after := boxes;
    FanoutStart(users, msg, boxes);
    while pending != {}
      invariant pending <= users.Keys
      invariant PartlyDelivered(users, boxes, msg, pending, after)
      decreases pending
    {
      var id :| id in pending;
      FanoutStep(users, msg, boxes, after, pending, id);
      after := after[users[id] := after[users[id]] + [msg]];
      pending := pending - {id};
    }
    FanoutDone(users, msg, boxes, after);
  }

  /** One turn of the `Run` loop: the `select` found the context done and closed `done`,
      or took one input message and passed it to `SendMessage`, or had nothing ready. */
  datatype StepOutcome = Stopped | Dispatched(msg: Message) | Blocked

  class Broker {
    /** The registry: user id -> receiving channel. */
    var users: map<string, Mailbox>
    /** The messages queued in every channel the broker has been given. */
    var mailboxes: map<Mailbox, seq<Message>>
    /** The buffered `input` channel, oldest first. */
    var input: seq<Message>
    /** `ctx.Err()`: `None` while the context is live. */
    var ctxErr: Option<ContextError>
    /** The `done` channel has been closed. */
    var done: bool

    ghost predicate Valid()
      reads this
    {
      Covers(users, mailboxes) && (done ==> ctxErr.Some?)
    }

    /** NewBroker: empty registry, empty input queue, `done` still open. */
    constructor (ctxErr: Option<ContextError>)
      ensures Valid()
      ensures users == map[] && mailboxes == map[] && input == []
      ensures this.ctxErr == ctxErr && !done
    {
      users := map[];
      mailboxes := map[];
      input := [];
      this.ctxErr := ctxErr;
      done := false;
    }

    /** The context ends, by `cancel()` or by its deadline; nothing makes it live again,
        and a context that is already done keeps its first error. */
    method EndContext(cause: ContextError)
      requires Valid()
      modifies this`ctxErr
      ensures Valid() && ctxErr == Ended(old(ctxErr), cause)
    {
      ctxErr := Ended(ctxErr, cause);
    }

    /** A producer writes `msg` into the `input` channel. */
    method Submit(msg: Message)
      requires Valid()
      modifies this`input
      ensures Valid() && input == old(input) + [msg]
    {
      input := input + [msg];
    }

    /** RegisterUser: `userID` now maps to `recv`, replacing any earlier channel. A channel
        the broker has not seen before starts empty. */
    method RegisterUser(userID: string, recv: Mailbox)
      requires Valid()
      modifies this`users, this`mailboxes
      ensures Valid()
      ensures users == old(users)[userID := recv]
      ensures mailboxes == if recv in old(mailboxes) then old(mailboxes) else old(mailboxes)[recv := []]
    {
      if recv !in mailboxes {
        mailboxes := mailboxes[recv := []];
      }
      users := users[userID := recv];
    }

    /** UnregisterUser: `userID` is gone; an absent id is a silent no-op. */
    method UnregisterUser(userID: string)
      requires Valid()
      modifies this`users
      ensures Valid()
      ensures users == old(users) - {userID}
      ensures userID !in old(users) ==> users == old(users)
    {
      users := users - {userID};
    }

    /** SendMessage: deliver first, then report the context's error, whichever of
        cancellation and deadline ended it. The registry, the input queue and the
        lifecycle are untouched. */
    method SendMessage(msg: Message) returns (err: Option<ContextError>)
      requires Valid()
      modifies this`mailboxes
      ensures Valid()
      ensures Delivered(users, old(mailboxes), msg, mailboxes)
      ensures err == ctxErr
    {
      if msg.broadcast {
        mailboxes := PushToAll(users, mailboxes, msg);
      } else {
        if msg.recipient in users {
          var box := users[msg.recipient];
          mailboxes := mailboxes[box := mailboxes[box] + [msg]];
        }
      }
      err := ctxErr;
    }

    /** One turn of Run's `select`. When the context is done and input is waiting, Go
        picks either case at random; `preferInput` is that choice. */
    method Step(preferInput: bool) returns (outcome: StepOutcome)
      requires Valid() && !done
      modifies this`mailboxes, this`input, this`done
      ensures Valid()
      ensures var takeInput := old(input) != [] && (ctxErr.None? || preferInput);
        if takeInput then
          outcome == Dispatched(old(input)[0]) && input == old(input)[1..] && !done &&
          Delivered(users, old(mailboxes), old(input)[0], mailboxes)
        else if ctxErr.Some? then
          outcome == Stopped && done && input == old(input) && mailboxes == old(mailboxes)
        else
          outcome == Blocked && !done && input == old(input) && mailboxes == old(mailboxes)
    {
      if input != [] && (ctxErr.None? || preferInput) {
        var msg := input[0];
        input := input[1..];
        var _ := SendMessage(msg);
        outcome := Dispatched(msg);
      } else if ctxErr.Some? {
        done := true;
        outcome := Stopped;
      } else {
        outcome := Blocked;
      }
    }
  }
}
