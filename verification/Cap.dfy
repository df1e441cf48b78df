/** The payloads of the Common Access Pipe: src/cap.c. */
module Cap {
  import opened Bytes
  import opened Types

  const SUBSCRIPTION: byte := 0x01
  const UNSUBSCRIPTION: byte := 0x02
  const ASSIGNMENT: byte := 0xFF

  const CAP_SUCCESS: byte := 0
  const NAME_ALREADY_TAKEN: byte := 1
  const FS: byte := 2

  /** The groups that were read, and the count the payload announced for them. */
  datatype Groups = Groups(list: seq<Data>, announced: nat)

  /** An assignment; the paths are there only when the error is CAP_SUCCESS. */
  datatype Assigned = Assigned(error: byte, pipes: Option<(Data, Data)>)

  // ----- Subscriptions -----

  function GroupBytes(groups: seq<Data>): (s: Data) {
    if groups == [] then [] else [Low8(|groups[0]|)] + groups[0] + GroupBytes(groups[1..])
  }

  /** What octopipes_cap_prepare_subscription produces: counts and sizes are cast to one byte. */
  function Subscription(groups: seq<Data>): (s: Data) {
    [SUBSCRIPTION, Low8(|groups|)] + GroupBytes(groups)
  }

  function ParseGroups(s: Data, left: nat): (r: Result<seq<Data>>)
    decreases left
  {
    if s == [] || left == 0 then Ok([])
    else if 1 + s[0] > |s| then Err(BAD_PACKET)
    else Prepend([s[1..1 + s[0]]], ParseGroups(s[1 + s[0]..], left - 1))
  }

  function Prepend(groups: seq<Data>, r: Result<seq<Data>>): Result<seq<Data>> {
    if r.Ok? then Ok(groups + r.value) else r
  }

  /** Parsing from a cursor on. */
  function ParseFrom(data: Data, ptr: nat, left: nat): (r: Result<seq<Data>>)
    requires ptr <= |data|
  {
    ParseGroups(data[ptr..], left)
  }

  /** octopipes_cap_parse_subscribe. */
  function ParseSubscription(data: Data): (r: Result<Groups>) {
    if |data| < 2 || data[0] != SUBSCRIPTION then Err(BAD_PACKET)
    else
      match ParseGroups(data[2..], data[1])
      case Ok(list) => Ok(Groups(list, data[1]))
      case Err(e) => Err(e)
  }

  /** Every group has a size that fits its size byte. */
  predicate Short(groups: seq<Data>) {
    forall i :: 0 <= i < |groups| ==> |groups[i]| <= 255
  }

  /** The list was cut off: the bytes ran out at the end of a group, before the announced count. */
  predicate Exhausted(s: Data, groups: seq<Data>, left: nat) {
    |groups| < left && s == GroupBytes(groups)
  }

  lemma {:induction false} ParseFailure(s: Data, left: nat)
    ensures ParseGroups(s, left).Err? ==> ParseGroups(s, left).error == BAD_PACKET
    decreases left
  {
    if s != [] && left > 0 && 1 + s[0] <= |s| {
      ParseFailure(s[1 + s[0]..], left - 1);
    }
  }

  /** Parsing yields exactly the group list that the bytes start with. */
  lemma {:induction false} GroupsParsedIff(s: Data, left: nat, groups: seq<Data>)
    ensures ParseGroups(s, left) == Ok(groups) <==>
            Short(groups) && (if |groups| == left then GroupBytes(groups) <= s else Exhausted(s, groups, left))
    decreases left
  {
    if s == [] || left == 0 || groups == [] {
      if groups != [] {
        assert |GroupBytes(groups)| > 0;
      }
    } else {
      var g, tail := groups[0], groups[1..];
      assert groups == [g] + tail;
      assert Short(groups) <==> |g| <= 255 && Short(tail);
      HeadGroup(s, g, GroupBytes(tail));
      if 1 + s[0] <= |s| {
        GroupsParsedIff(s[1 + s[0]..], left - 1, tail);
        SameHead(s[1..1 + s[0]], ParseGroups(s[1 + s[0]..], left - 1), g, tail);
      }
    }
  }

  lemma HeadGroup(s: Data, g: Data, b: Data)
    requires s != []
    ensures var fits := |g| <= 255 && s[0] == |g| && 1 + s[0] <= |s| && s[1..1 + s[0]] == g;
            && (|g| <= 255 && [Low8(|g|)] + g + b <= s <==> fits && b <= s[1 + s[0]..])
            && (|g| <= 255 && [Low8(|g|)] + g + b == s <==> fits && b == s[1 + s[0]..])
  {
    var t := [Low8(|g|)] + g;
    if |g| <= 255 && t + b <= s {
      assert s[..|t|] == (t + b)[..|t|] == t;
      assert s[1..|t|] == t[1..];
      assert s[|t|..][..|b|] == b;
    }
    if |g| <= 255 && s[0] == |g| && 1 + |g| <= |s| && s[1..1 + |g|] == g {
      assert s == t + s[1 + |g|..];
    }
  }

  lemma SameHead(h: Data, r: Result<seq<Data>>, g: Data, tail: seq<Data>)
    ensures Prepend([h], r) == Ok([g] + tail) <==> h == g && r == Ok(tail)
  {
    if r.Ok? && [h] + r.value == [g] + tail {
      assert ([h] + r.value)[0] == h && ([h] + r.value)[1..] == r.value;
      assert ([g] + tail)[0] == g && ([g] + tail)[1..] == tail;
    }
  }

  /** Parsing inverts preparing iff the counts and sizes fit their bytes; bytes after the list are ignored. */
  lemma SubscriptionRoundTrip(groups: seq<Data>, rest: Data)
    ensures ParseSubscription(Subscription(groups) + rest) == Ok(Groups(groups, |groups|))
            <==> |groups| <= 255 && Short(groups)
  {
    var data := Subscription(groups) + rest;
    assert data[2..] == GroupBytes(groups) + rest;
    GroupsParsedIff(data[2..], data[1], groups);
  }

  /** Success promises the announced groups exactly when the bytes did not run out. */
  lemma AnnouncedGroups(data: Data, groups: Groups)
    requires ParseSubscription(data) == Ok(groups)
    ensures |groups.list| <= groups.announced
    ensures |groups.list| < groups.announced <==> Exhausted(data[2..], groups.list, data[1])
    ensures [SUBSCRIPTION, data[1]] + GroupBytes(groups.list) <= data
  {
    GroupsParsedIff(data[2..], data[1], groups.list);
    assert data == [SUBSCRIPTION, data[1]] + data[2..];
    assert data[..|GroupBytes(groups.list)| + 2] == [SUBSCRIPTION, data[1]] + data[2..][..|GroupBytes(groups.list)|];
  }

  /** Such an input: one group announced, no bytes for it, and the parse succeeds. */
  lemma SubscriptionCutShort()
    ensures ParseSubscription([SUBSCRIPTION, 1]) == Ok(Groups([], 1))
  {
  }

  method PrepareSubscription(groups: seq<Name>) returns (data: array<byte>)
    ensures fresh(data) && data[..] == Subscription(groups)
  {
    var size := 2;
    for i := 0 to |groups|
      invariant size == 2 + |GroupBytes(groups[..i])|
    {
      GroupBytesSnoc(groups, i);
      size := size + |groups[i]| + 1;
    }
    assert groups[..|groups|] == groups;
    data := new byte[size];
    data[0] := SUBSCRIPTION;
    data[1] := Low8(|groups|);
    var ptr := 2;
    assert data[..ptr] == [SUBSCRIPTION, Low8(|groups|)] + GroupBytes(groups[..0]);
    for i := 0 to |groups|
      invariant ptr == 2 + |GroupBytes(groups[..i])| <= size
      invariant data[..ptr] == [SUBSCRIPTION, Low8(|groups|)] + GroupBytes(groups[..i])
    {
      GroupBytesSnoc(groups, i);
      GroupBytesGrow(groups, i + 1);
      ptr := Append(data, ptr, [Low8(|groups[i]|)]);
      ptr := Append(data, ptr, groups[i]);
    }
    assert data[..] == data[..ptr];
  }

  lemma {:induction false} GroupBytesConcat(a: seq<Data>, b: seq<Data>)
    ensures GroupBytes(a + b) == GroupBytes(a) + GroupBytes(b)
  {
    if a == [] {
      assert a + b == b;
    } else {
      assert (a + b)[1..] == a[1..] + b;
      GroupBytesConcat(a[1..], b);
    }
  }

  lemma GroupBytesSnoc(groups: seq<Data>, i: nat)
    requires i < |groups|
    ensures GroupBytes(groups[..i + 1]) == GroupBytes(groups[..i]) + ([Low8(|groups[i]|)] + groups[i])
  {
    assert groups[..i + 1] == groups[..i] + [groups[i]];
    GroupBytesConcat(groups[..i], [groups[i]]);
  }

  lemma GroupBytesGrow(groups: seq<Data>, i: nat)
    requires i <= |groups|
    ensures |GroupBytes(groups[..i])| <= |GroupBytes(groups)|
  {
    assert groups == groups[..i] + groups[i..];
    GroupBytesConcat(groups[..i], groups[i..]);
  }

  method ParseSubscribe(data: Data) returns (r: Result<Groups>)
    ensures r == ParseSubscription(data)
  {
    if |data| < 2 {
      return Err(BAD_PACKET);
    }
    if data[0] != SUBSCRIPTION {
      return Err(BAD_PACKET);
    }
    hide ParseFrom, Prepend;
    var amount: nat := data[1];
    var ptr, groups := 2, [];
    ghost var goal := ParseFrom(data, ptr, amount);
    assert goal == ParseGroups(data[2..], amount) by { FromCursor(data, 2, amount); }
    PrependNothing(goal);
    while ptr < |data| && |groups| < amount
      invariant 2 <= ptr <= |data| && |groups| <= amount
      invariant goal == Prepend(groups, ParseFrom(data, ptr, amount - |groups|))
      decreases amount - |groups|
    {
      var size := data[ptr];
      NextGroup(data, ptr, amount - |groups|);
      PrependEnds(groups);
      ptr := ptr + 1;
      if ptr + size > |data| {
        return Err(BAD_PACKET);
      }
      PrependTwice(groups, data[ptr..ptr + size], ParseFrom(data, ptr + size, amount - |groups| - 1));
      groups := groups + [data[ptr..ptr + size]];
      ptr := ptr + size;
    }
    NoMoreGroups(data, ptr, amount - |groups|);
    PrependEnds(groups);
    r := Ok(Groups(groups, amount));
  }

  lemma FromCursor(data: Data, ptr: nat, left: nat)
    requires ptr <= |data|
    ensures ParseFrom(data, ptr, left) == ParseGroups(data[ptr..], left)
  {
  }

  lemma NextGroup(data: Data, ptr: nat, left: nat)
    requires ptr < |data| && left > 0
    ensures var size := data[ptr];
            ParseFrom(data, ptr, left)
            == if ptr + 1 + size > |data| then Err(BAD_PACKET)
               else Prepend([data[ptr + 1..ptr + 1 + size]], ParseFrom(data, ptr + 1 + size, left - 1))
  {
    var s, size := data[ptr..], data[ptr];
    assert s[0] == size;
    if ptr + 1 + size <= |data| {
      assert s[1..1 + size] == data[ptr + 1..ptr + 1 + size] && s[1 + size..] == data[ptr + 1 + size..];
    }
  }

  lemma NoMoreGroups(data: Data, ptr: nat, left: nat)
    requires ptr == |data| || (ptr < |data| && left == 0)
    ensures ParseFrom(data, ptr, left) == Ok([])
  {
  }

  lemma PrependEnds(groups: seq<Data>)
    ensures Prepend(groups, Ok([])) == Ok(groups) && Prepend(groups, Err(BAD_PACKET)) == Err(BAD_PACKET)
  {
    assert groups + [] == groups;
  }

  lemma PrependNothing(r: Result<seq<Data>>)
    ensures Prepend([], r) == r
  {
    if r.Ok? {
      assert [] + r.value == r.value;
    }
  }

  lemma PrependTwice(groups: seq<Data>, g: Data, r: Result<seq<Data>>)
    ensures Prepend(groups, Prepend([g], r)) == Prepend(groups + [g], r)
  {
    if r.Ok? {
      assert groups + ([g] + r.value) == groups + [g] + r.value;
    }
  }

  // ----- Assignments -----

  /** What octopipes_cap_prepare_assign produces: the path sizes are cast to one byte. */
  function Assignment(error: byte, tx: Data, rx: Data): (s: Data) {
    [ASSIGNMENT, error, Low8(|tx|)] + tx + [Low8(|rx|)] + rx
  }

  /** octopipes_cap_parse_assign; on an error code the rest of the payload is not looked at. */
  function ParseAssignment(data: Data): (r: Result<Assigned>) {
    if |data| < 4 || data[0] != ASSIGNMENT then Err(BAD_PACKET)
    else if data[1] != CAP_SUCCESS then Ok(Assigned(data[1], None))
    else if 3 + data[2] >= |data| then Err(BAD_PACKET)
    else
      var p, rx: nat := 3 + data[2] as nat, data[3 + data[2]];
      if p + 1 + rx > |data| then Err(BAD_PACKET)
      else Ok(Assigned(CAP_SUCCESS, Some((data[3..p], data[p + 1..p + 1 + rx]))))
  }

  /** A successful assignment comes back iff both paths fit their size bytes; an error comes back alone. */
  lemma AssignmentRoundTrip(error: byte, tx: Data, rx: Data)
    ensures error == CAP_SUCCESS ==>
              (ParseAssignment(Assignment(error, tx, rx)) == Ok(Assigned(error, Some((tx, rx))))
               <==> |tx| <= 255 && |rx| <= 255)
    ensures error != CAP_SUCCESS ==> ParseAssignment(Assignment(error, tx, rx)) == Ok(Assigned(error, None))
  {
    var data := Assignment(error, tx, rx);
    if error == CAP_SUCCESS && |tx| <= 255 && |rx| <= 255 {
      assert data[3..3 + |tx|] == tx && data[3 + |tx|] == |rx|;
      assert data[4 + |tx|..4 + |tx| + |rx|] == rx;
    }
  }

  /** Exactly the payloads that start with an assignment of these paths yield them. */
  lemma AssignmentParsedIff(data: Data, tx: Data, rx: Data)
    ensures ParseAssignment(data) == Ok(Assigned(CAP_SUCCESS, Some((tx, rx))))
            <==> |tx| <= 255 && |rx| <= 255 && Assignment(CAP_SUCCESS, tx, rx) <= data
  {
    var a := Assignment(CAP_SUCCESS, tx, rx);
    var p := 3 + |tx|;
    if |tx| <= 255 && |rx| <= 255 && a <= data {
      assert data[..|a|] == a && a[2] == |tx| && a[p] == |rx|;
      assert data[3..p] == a[3..p] == tx;
      assert data[p + 1..p + 1 + |rx|] == a[p + 1..] == rx;
    }
    if ParseAssignment(data) == Ok(Assigned(CAP_SUCCESS, Some((tx, rx)))) {
      assert data[..|a|] == a;
    }
  }

  /** An assignment that carries an error yields it, whatever follows. */
  lemma AssignedErrorIff(data: Data, error: byte)
    requires error != 0
    ensures ParseAssignment(data) == Ok(Assigned(error, None)) <==> |data| >= 4 && data[0] == 255 && data[1] == error
  {
  }

  method PrepareAssign(error: byte, tx: Data, rx: Data) returns (data: array<byte>)
    ensures fresh(data) && data[..] == Assignment(error, tx, rx)
  {
    data := new byte[4 + |tx| + |rx|];
    var ptr := Append(data, 0, [ASSIGNMENT, error, Low8(|tx|)]);
    ptr := Append(data, ptr, tx);
    ptr := Append(data, ptr, [Low8(|rx|)]);
    ptr := Append(data, ptr, rx);
    assert data[..] == data[..ptr];
  }

  method ParseAssign(data: Data) returns (r: Result<Assigned>)
    ensures r == ParseAssignment(data)
  {
    if |data| < 4 {
      return Err(BAD_PACKET);
    }
    if data[0] != ASSIGNMENT {
      return Err(BAD_PACKET);
    }
    var error := data[1];
    if error != CAP_SUCCESS {
      return Ok(Assigned(error, None));
    }
    var txSize := data[2];
    var ptr: nat := 3;
    if ptr + txSize >= |data| {
      return Err(BAD_PACKET);
    }
    var tx := data[ptr..ptr + txSize];
    ptr := ptr + txSize;
    var rxSize := data[ptr];
    ptr := ptr + 1;
    if ptr + rxSize > |data| {
      return Err(BAD_PACKET);
    }
    r := Ok(Assigned(CAP_SUCCESS, Some((tx, data[ptr..ptr + rxSize]))));
  }

  // ----- Unsubscriptions and message kinds -----

  const UNSUBSCRIPTION_PAYLOAD: Data := [UNSUBSCRIPTION]

  datatype Kind = Subscribe | Unsubscribe | Assign | Unknown

  /** octopipes_cap_get_message. */
  function KindOf(data: Data): (k: Kind) {
    if data == [] then Unknown
    else if data[0] == SUBSCRIPTION then Subscribe
    else if data[0] == UNSUBSCRIPTION then Unsubscribe
    else if data[0] == ASSIGNMENT then Assign
    else Unknown
  }

  /** The first byte of each kind of payload, and the error codes of an assignment. */
  lemma CapBytes(data: Data)
    ensures KindOf(data) == Subscribe <==> data != [] && data[0] == 1
    ensures KindOf(data) == Unsubscribe <==> data != [] && data[0] == 2
    ensures KindOf(data) == Assign <==> data != [] && data[0] == 255
    ensures Subscription([[97], [98, 99]]) == [1, 2, 1, 97, 2, 98, 99] && UNSUBSCRIPTION_PAYLOAD == [2]
    ensures Assignment(CAP_SUCCESS, [47, 116], [47]) == [255, 0, 2, 47, 116, 1, 47]
    ensures Assignment(NAME_ALREADY_TAKEN, [], []) == [255, 1, 0, 0] && Assignment(FS, [], []) == [255, 2, 0, 0]
  {
    var groups: seq<Data> := [[97], [98, 99]];
    assert groups[1..] == [[98, 99]] && groups[1..][1..] == [];
    assert GroupBytes([]) == [];
    assert GroupBytes(groups[1..]) == [2] + [98, 99] + [];
  }
}
