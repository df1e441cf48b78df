/** The message inbox of src/server.c: an array that is reallocated on every push and shifted on every removal. */
module Inboxes {
  import opened Types
  import opened Broker

  class Inbox {
    var messages: array<Entry>
    var length: nat

    ghost predicate Valid()
      reads this
    {
      length <= messages.Length
    }

    ghost function Contents(): (q: seq<Entry>)
      reads this, messages
      requires Valid()
    {
      messages[..length]
    }

    constructor ()
      ensures Valid() && fresh(messages) && Contents() == []
    {
      messages := new Entry[0];
      length := 0;
    }

    /** realloc: a block of another size with the common prefix of the old one. */
    static method Realloc(from: array<Entry>, n: nat) returns (a: array<Entry>)
      ensures fresh(a) && a.Length == n
      ensures forall i :: 0 <= i < n && i < from.Length ==> a[i] == from[i]
    {
      a := new Entry[n];
      forall i | 0 <= i < n && i < from.Length {
        a[i] := from[i];
      }
    }

    /** message_inbox_push. */
    method Push(message: Option<Message>, error: ServerError)
      requires Valid()
      modifies this
      ensures Valid() && fresh(messages)
      ensures Contents() == old(Contents()) + [Entry(message, error)]
    {
      messages := Realloc(messages, length + 1);
      messages[length] := Entry(message, error);
      length := length + 1;
    }

    /** Moves every entry after position at one place towards the front. */
    method ShiftDown(at: nat)
      requires Valid() && at < length
      modifies messages
      ensures messages[..length - 1] == old(messages[..at]) + old(messages[at + 1..length])
    {
      for i := at to length - 1
        invariant forall k :: 0 <= k < messages.Length && (k < at || i <= k) ==> messages[k] == old(messages[k])
        invariant forall k :: at <= k < i ==> messages[k] == old(messages[k + 1])
      {
        messages[i] := messages[i + 1];
      }
    }

    /** message_inbox_dequeue, with the entries shifted rather than the inbox record. */
    method Dequeue() returns (head: Option<Entry>)
      requires Valid()
      modifies this, messages
      ensures Valid() && (messages == old(messages) || fresh(messages))
      ensures old(Contents()) == [] ==> head == None && Contents() == []
      ensures old(Contents()) != [] ==> head == Some(old(Contents())[0]) && Contents() == old(Contents())[1..]
    {
      if length == 0 {
        return None;
      }
      head := Some(messages[0]);
      ShiftDown(0);
      messages := Realloc(messages, length - 1);
      length := length - 1;
    }

    /** message_inbox_remove; an index out of range is ignored. */
    method Remove(index: nat)
      requires Valid()
      modifies this, messages
      ensures Valid() && (messages == old(messages) || fresh(messages))
      ensures Contents() == if index < |old(Contents())| then old(Contents())[..index] + old(Contents())[index + 1..]
                            else old(Contents())
    {
      if index >= length {
        return;
      }
      ShiftDown(index);
      messages := Realloc(messages, length - 1);
      length := length - 1;
    }

    /** message_inbox_remove with its loop as written; fault means that it leaves the one record allocated. */
    method RemoveAsWritten(index: nat) returns (fault: bool)
      requires Valid()
      modifies this
      ensures Valid() && (messages == old(messages) || fresh(messages))
      ensures fault <==> index + 1 < |old(Contents())|
      ensures !fault ==> Contents() == if index < |old(Contents())| then old(Contents())[..index] else old(Contents())
    {
      if index >= length {
        return false;
      }
      var records, newLength := 1, length - 1;
      for i := index to newLength
        invariant i == index && length == old(length) && messages == old(messages)
      {
        if i + 1 >= records {
          return true;
        }
      }
      messages := Realloc(messages, newLength);
      length := newLength;
      fault := false;
    }

    /** message_inbox_expunge, returning what it throws away; the array itself is kept. */
    method Expunge() returns (ghost lost: seq<Entry>)
      requires Valid()
      modifies this`length
      ensures Valid() && Contents() == [] && lost == old(Contents())
    {
      lost := [];
      for i := 0 to length
        invariant lost == messages[..i]
      {
        lost := lost + [messages[i]];
      }
      length := 0;
    }

    /**
     message_inbox_dequeue with its loop as written: it copies inbox records, of which one is allocated. None
     means that the loop leaves that allocation.
     */
    method DequeueAsWritten() returns (head: Option<Option<Entry>>)
      requires Valid()
      modifies this
      ensures Valid() && (messages == old(messages) || fresh(messages))
      ensures head.None? <==> |old(Contents())| >= 2
      ensures old(Contents()) == [] ==> head == Some(None) && Contents() == []
      ensures |old(Contents())| == 1 ==> head == Some(Some(old(Contents())[0])) && Contents() == old(Contents())[1..]
    {
      if length == 0 {
        return Some(None);
      }
      var records, newLength := 1, length - 1;
      var first := messages[0];
      for i := 0 to newLength
        invariant i == 0 && length == old(length) && messages == old(messages)
      {
        if i + 1 >= records {
          return None;
        }
      }
      messages := new Entry[0];
      length := newLength;
      head := Some(Some(first));
    }
  }
}
