/** The lab03 in-memory message store (labs/lab03/backend/storage/memory.go): messages in a
    map keyed by id, ids handed out from `nextID`. Go stores pointers, so `Update` edits the
    stored message in place; here the map entry is replaced by the edited value. */
module Lab03Storage {
  import opened Wrappers
  import opened Lab03Models

  datatype StorageError = ErrMessageNotFound | ErrInvalidID

  class MemoryStorage {
    var messages: map<int, Message>
    var nextID: int

    /** Every message sits under its own id, every id is positive and below `nextID`, so
        an id is never handed out twice, even after a Delete. */
    ghost predicate Valid()
      reads this
    {
      && nextID >= 1
      && forall k :: k in messages ==> 1 <= k < nextID && messages[k].id == k
    }

    /** NewMemoryStorage. */
    constructor ()
      ensures Valid() && messages == map[] && nextID == 1
    {
      messages := map[];
      nextID := 1;
    }

    /** Count: the number of stored messages. Every stored message has its own id, so it
        is also the number of distinct stored messages. */
    function Count(): (n: nat)
      reads this
      requires Valid()
      ensures n == |messages.Values|
    {
      ValuesCount(messages);
      |messages|
    }

    /** GetAll: every stored message exactly once, in no particular order, so as many
        messages as Count() reports. */
    method GetAll() returns (res: seq<Message>)
      requires Valid()
      ensures forall m :: m in res <==> m in messages.Values
      ensures forall i, j :: 0 <= i < j < |res| ==> res[i] != res[j]
      ensures |res| == Count()
    {
      res := [];
      var pending := messages.Keys;
      while pending != {}
        invariant pending <= messages.Keys
        invariant |res| + |pending| == |messages|
        invariant forall i :: 0 <= i < |res| ==>
          res[i].id in messages && res[i].id !in pending && messages[res[i].id] == res[i]
        invariant forall k :: k in messages && k !in pending ==> messages[k] in res
        invariant forall i, j :: 0 <= i < j < |res| ==> res[i] != res[j]
        decreases pending
      {
        // The verifier finds no element of a non-empty int set unaided; ruling out
        // "no element" hands it one.
        if forall x :: x !in pending { assert false; }
        var k :| k in pending;
        res := res + [messages[k]];
        pending := pending - {k};
      }
      forall m | m in messages.Values
        ensures m in res
      {
        // Ruling out "no key holds m" gives the verifier the key whose message is m.
        if forall k :: k in messages ==> messages[k] != m { assert false; }
      }
    }

    /** GetByID: the stored message, or ErrMessageNotFound. */
    method GetByID(id: int) returns (r: Result<Message, StorageError>)
      ensures id in messages ==> r == Ok(messages[id])
      ensures id !in messages ==> r == Err(ErrMessageNotFound)
    {
      if id in messages {
        return Ok(messages[id]);
      }
      return Err(ErrMessageNotFound);
    }

    /** Create: a new message under the old `nextID`, which was free; never fails. */
    method Create(username: string, content: string, now: int) returns (r: Result<Message, StorageError>)
      requires Valid()
      modifies this
      ensures Valid()
      ensures r == Ok(NewMessage(old(nextID), username, content, now))
      ensures old(nextID) !in old(messages)
      ensures messages == old(messages)[old(nextID) := r.value] && nextID == old(nextID) + 1
      ensures Count() == old(Count()) + 1
    {
      var msg := NewMessage(nextID, username, content, now);
      messages := messages[nextID := msg];
      nextID := nextID + 1;
      return Ok(msg);
    }

    /** Update: a missing id is ErrInvalidID and changes nothing; otherwise that message
        gets the new content and timestamp, keeping its id and username. */
    method Update(id: int, content: string, now: int) returns (r: Result<Message, StorageError>)
      requires Valid()
      modifies this`messages
      ensures Valid()
      ensures id !in old(messages) ==> r == Err(ErrInvalidID) && messages == old(messages)
      ensures id in old(messages) ==>
        && r == Ok(old(messages)[id].(content := content, timestamp := now))
        && messages == old(messages)[id := r.value]
    {
      if id !in messages {
        return Err(ErrInvalidID);
      }
      var msg := messages[id].(content := content, timestamp := now);
      messages := messages[id := msg];
      return Ok(msg);
    }

    /** Delete: removes only `id`, or reports ErrMessageNotFound and changes nothing. */
    method Delete(id: int) returns (err: Option<StorageError>)
      requires Valid()
      modifies this`messages
      ensures Valid()
      ensures id !in old(messages) ==> err == Some(ErrMessageNotFound) && messages == old(messages)
      ensures id in old(messages) ==> err == None && messages == old(messages) - {id}
      ensures err == None ==> Count() == old(Count()) - 1
      ensures err != None ==> Count() == old(Count())
    {
      if id !in messages {
        return Some(ErrMessageNotFound);
      }
      messages := messages - {id};
      return None;
    }
  }

  /** Some element of a non-empty set of ids. */
  lemma PickKey(s: set<int>) returns (k: int)
    requires s != {}
    ensures k in s
  {
    // The verifier finds no element of a non-empty int set unaided; ruling out
    // "no element" hands it one.
    if forall x :: x !in s { assert false; }
    k :| k in s;
  }

  /** A map whose every entry holds its own key as id has as many distinct values as keys. */
  lemma {:induction false} ValuesCount(m: map<int, Message>)
    requires forall k :: k in m ==> m[k].id == k
    ensures |m.Values| == |m|
    decreases |m|
  {
    if m != map[] {
      var k := PickKey(m.Keys);
      var rest := m - {k};
      ValuesCount(rest);
      forall v | v in m.Values
        ensures v in rest.Values + {m[k]}
      {
        // As above: ruling out "no key holds v" yields the key that does.
        if forall j :: j in m ==> m[j] != v { assert false; }
        var j :| j in m && m[j] == v;
        if j != k {
          assert j in rest;
        }
      }
      assert m.Values == rest.Values + {m[k]};
      assert m[k] !in rest.Values;
    }
  }
}
