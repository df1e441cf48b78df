/** Subscribing end to end: client, CAP codec, wire format, server and back. */
module Handshake {
  import opened Bytes
  import opened Types
  import opened Frame
  import opened FrameLaws
  import opened Cap
  import opened Broker
  import opened Control
  import opened Clients

  lemma {:induction false} GroupBytesBound(groups: seq<Data>)
    requires Short(groups)
    ensures |GroupBytes(groups)| <= 256 * |groups|
  {
    if groups != [] {
      assert Short(groups[1..]) by {
        assert forall i :: 0 <= i < |groups| - 1 ==> groups[1..][i] == groups[i + 1];
      }
      GroupBytesBound(groups[1..]);
    }
  }

  /** The sizes that the one-byte fields of both codecs can carry. */
  predicate Fits(folder: Name, id: Name, groups: seq<Name>) {
    0 < |id| <= 255 && |groups| <= 255 && Short(groups) && |TxPath(folder, id)| <= 255
  }

  lemma RequestArrives(folder: Name, id: Name, groups: seq<Name>, reading: Reading)
    requires Fits(folder, id, groups)
    ensures var m := SubscribeMessage(id, groups);
            m.Sized() && Decode(Encoded(m), reading) == Decoded(Sealed(m))
  {
    var m := SubscribeMessage(id, groups);
    GroupBytesBound(groups);
    DecodeInvertsEncode(m, [], reading);
    assert Encoded(m) + [] == Encoded(m);
  }

  lemma ReplyArrives(c: ClientView, error: byte, tx: Name, rx: Name, reading: Reading)
    requires |c.id| <= 255 && c.id != [] && |tx| <= 255 && |rx| <= 255
    ensures var payload := Assignment(error, tx, rx);
            TakeReply(c, Ok(Encoded(ReplyMessage(c.id, payload))), reading) == TakeAssignment(c, payload)
  {
    hide Decode, Encoded, Stem, Checksum, CStr, TakeAssignment;
    var payload := Assignment(error, tx, rx);
    var m := ReplyMessage(c.id, payload);
    DecodeInvertsEncode(m, [], reading);
    assert Encoded(m) + [] == Encoded(m);
    CStrOfClean(c.id);
    assert payload[0] == ASSIGNMENT;
  }

  /** What server and client read of each other's CAP messages, field by field. */
  lemma CapMessages(id: Name, groups: seq<Name>, payload: Data, reading: Reading)
    requires 0 < |id| <= 255 && SubscribeMessage(id, groups).Sized() && ReplyMessage(id, payload).Sized()
    ensures exists m :: Decode(Encoded(SubscribeMessage(id, groups)), reading) == Decoded(m)
                        && m.origin == id && m.remote == [] && m.ttl == 60 && m.options == 0
                        && m.data == Subscription(groups)
    ensures exists m :: Decode(Encoded(UnsubscribeMessage(id)), reading) == Decoded(m)
                        && m.origin == id && m.remote == [] && m.ttl == 60 && m.options == 0 && m.data == [2]
    ensures exists m :: Decode(Encoded(ReplyMessage(id, payload)), reading) == Decoded(m)
                        && m.origin == [] && m.remote == id && m.ttl == 5 && m.options == 0 && m.data == payload
  {
    hide Decode, Encoded, Checksum, Subscription;
    FrameArrives(SubscribeMessage(id, groups), reading);
    FrameArrives(UnsubscribeMessage(id), reading);
    FrameArrives(ReplyMessage(id, payload), reading);
  }

  lemma FrameArrives(m: Message, reading: Reading)
    requires m.version == VERSION_1 && m.Sized()
    ensures Decode(Encoded(m), reading) == Decoded(Sealed(m))
  {
    DecodeInvertsEncode(m, [], reading);
    assert Encoded(m) + [] == Encoded(m);
  }

  lemma CleanGroups(groups: seq<Name>)
    ensures seq(|groups|, i requires 0 <= i < |groups| => CStr(groups[i])) == groups
  {
    forall i | 0 <= i < |groups| ensures CStr(groups[i]) == groups[i] {
      CStrOfClean(groups[i]);
    }
  }

  /**
   A new client's request, sent and read in either reading of the source, adds one worker that has the groups
   and the client's own name as subscriptions, and leaves the client subscribed with that worker's pipes.
   */
  lemma HandshakeComposes(s: Server, c: ClientView, groups: seq<Name>, reading: Reading)
    requires Fits(s.folder, c.id, groups) && !Registered(s.workers, c.id)
    ensures var m := Sealed(SubscribeMessage(c.id, groups));
            && Decode(Encoded(SubscribeMessage(c.id, groups)), reading) == Decoded(m)
            && var h := HandleCap(s, m, NO_TROUBLE, reading);
               var w := Worker(c.id, groups + [c.id], TxPath(s.folder, c.id), RxPath(s.folder, c.id), []);
               && h.Handled? && h.error == SUCCESS && h.server.workers == s.workers + [w]
               && |h.server.replies| == |s.replies| + 1
               && TakeReply(c, Ok(h.server.replies[|s.replies|]), reading)
                  == Exchanged(ClientView(c.id, SUBSCRIBED, Some((w.pipeRead, w.pipeWrite))), Ok(()), Some(CAP_SUCCESS))
  {
    hide Encoded, Decode, CStr, ParseGroups;
    var m := Sealed(SubscribeMessage(c.id, groups));
    var tx, rx := TxPath(s.folder, c.id), RxPath(s.folder, c.id);
    RequestArrives(s.folder, c.id, groups, reading);
    CStrOfClean(c.id);
    CleanGroups(groups);
    SubscriptionRoundTrip(groups, []);
    assert Subscription(groups) + [] == Subscription(groups);
    ReplyArrives(c, CAP_SUCCESS, tx, rx, reading);
    AssignmentRoundTrip(CAP_SUCCESS, tx, rx);
  }

  /**
   A client whose name is taken gets the error of the documented reply, changes nothing at the server, and still
   ends up in the subscribed state: without pipes or, if it holds some from an earlier subscription, with those.
   The pipes of a name are always the same, so it then shares them with the client that took the name.
   */
  lemma TakenNameStillSubscribed(s: Server, c: ClientView, groups: seq<Name>)
    requires Fits(s.folder, c.id, groups) && Registered(s.workers, c.id)
    ensures var h := HandleCap(s, Sealed(SubscribeMessage(c.id, groups)), NO_TROUBLE, Documented);
            && h.error == SUCCESS && h.server.workers == s.workers && |h.server.replies| == |s.replies| + 1
            && TakeReply(c, Ok(h.server.replies[|s.replies|]), Documented)
               == Exchanged(ClientView(c.id, SUBSCRIBED, if HoldsOldPipes(c) then c.pipes else None), Ok(()),
                            Some(NAME_ALREADY_TAKEN))
    ensures HandleCap(s, Sealed(SubscribeMessage(c.id, groups)), NO_TROUBLE, AsWritten) == Crashed
  {
    hide Encoded, Decode, CStr, TxPath, RxPath, ParseGroups, TakeReply;
    CStrOfClean(c.id);
    SubscriptionRoundTrip(groups, []);
    assert Subscription(groups) + [] == Subscription(groups);
    ReplyArrives(c, NAME_ALREADY_TAKEN, [], [], Documented);
    AssignmentRoundTrip(NAME_ALREADY_TAKEN, [], []);
  }

  /** So two clients then read and write the same pipes: those of the worker that the name belongs to. */
  lemma OldPipesShared(s: Server, c: ClientView, groups: seq<Name>)
    requires Fits(s.folder, c.id, groups) && Registered(s.workers, c.id) && RegistryOk(s.folder, s.workers)
    requires HoldsOldPipes(c) && c.pipes == Some((TxPath(s.folder, c.id), RxPath(s.folder, c.id)))
    ensures var h := HandleCap(s, Sealed(SubscribeMessage(c.id, groups)), NO_TROUBLE, Documented);
            var w := s.workers[IndexOf(s.workers, c.id)];
            && |h.server.replies| == |s.replies| + 1
            && var r := TakeReply(c, Ok(h.server.replies[|s.replies|]), Documented);
               && r.Exchanged? && r.client == ClientView(c.id, SUBSCRIBED, Some((w.pipeRead, w.pipeWrite)))
               && r.assignment == Some(NAME_ALREADY_TAKEN)
  {
    hide HandleCap, TakeReply, TxPath, RxPath, Encoded;
    TakenNameStillSubscribed(s, c, groups);
    assert s.workers[IndexOf(s.workers, c.id)] in s.workers;
  }

  /** Subscribing and then unsubscribing a new client leaves the registry as it was. */
  lemma UnsubscribeUndoesSubscribe(s: Server, c: ClientView, groups: seq<Name>, reading: Reading)
    requires Fits(s.folder, c.id, groups) && !Registered(s.workers, c.id)
    ensures var h := HandleCap(s, Sealed(SubscribeMessage(c.id, groups)), NO_TROUBLE, reading);
            h.Handled? &&
            var u := HandleCap(h.server, Sealed(UnsubscribeMessage(c.id)), NO_TROUBLE, reading);
            u.Handled? && u.error == SUCCESS && u.server.workers == s.workers
  {
    hide ParseSubscription, Subscription, Encoded, Decode, TakeReply, CStr, TxPath, RxPath;
    HandshakeComposes(s, c, groups, reading);
    CStrOfClean(c.id);
    var w := Worker(c.id, groups + [c.id], TxPath(s.folder, c.id), RxPath(s.folder, c.id), []);
    StartThenStop(s.workers, w);
    assert (s.workers + [w])[|s.workers|] in s.workers + [w];
  }

  /**
   Whatever a complete subscription meets, the reply tells the client what happened to the registry: success iff
   its worker was added, name taken iff there already was one, and a file system error otherwise. A reply that
   cannot be written changes nothing.
   */
  lemma ReplyTellsOutcome(s: Server, client: Name, groups: seq<Name>, env: CapEnv)
    requires |groups| <= 255 && Short(groups) && |TxPath(s.folder, client)| <= 255
    ensures var h := AnswerSubscription(s, client, Subscription(groups), env, Documented);
            && h.Handled?
            && (env.reply.Err? ==> h == Handled(s, ToServerError(env.reply.error)))
            && (env.reply.Ok? ==>
                  && h.error == SUCCESS && |h.server.replies| == |s.replies| + 1
                  && exists payload, a ::
                       && h.server.replies == s.replies + [Encoded(ReplyMessage(client, payload))]
                       && ParseAssignment(payload) == Ok(a)
                       && (a.error == CAP_SUCCESS <==> h.server.workers != s.workers)
                       && (a.error == CAP_SUCCESS ==>
                             a.pipes == Some((TxPath(s.folder, client), RxPath(s.folder, client))))
                       && (a.error == NAME_ALREADY_TAKEN <==> Registered(s.workers, client))
                       && (a.error == FS <==> !Registered(s.workers, client) && !env.pipesOk))
  {
    hide Encoded, CStr, ParseGroups;
    var tx, rx := TxPath(s.folder, client), RxPath(s.folder, client);
    var w := NewWorker(client, groups, tx, rx);
    SubscriptionRoundTrip(groups, []);
    assert Subscription(groups) + [] == Subscription(groups);
    StartThenStop(s.workers, w);
    var error := if Registered(s.workers, client) then NAME_ALREADY_TAKEN else if env.pipesOk then CAP_SUCCESS else FS;
    var payload := if error == CAP_SUCCESS then Assignment(error, tx, rx) else Assignment(error, [], []);
    AssignmentRoundTrip(error, if error == CAP_SUCCESS then tx else [], if error == CAP_SUCCESS then rx else []);
    var a := ParseAssignment(payload).value;
    assert ParseAssignment(payload) == Ok(a);
    if error == CAP_SUCCESS {
      assert |s.workers + [w]| == |s.workers| + 1;
    }
  }
}
