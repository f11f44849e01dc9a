/**
 * The Mediator relay for the TSS ceremony. Its state is one key-value cache
 * shared by session participant lists (`session-<sid>`), ceremony-start
 * snapshots (`session-<sid>-start`) and relayed messages
 * (`<sid>-<recipient>-[<message id>-]<hash>`, one copy per recipient), plus
 * the WebSocket hub's map from identity to connection and from session to
 * owner. HTTP requests arrive already decoded: a route parameter or header
 * that is missing is `None`, and so is a body that does not decode. Text
 * written to a connection is appended to the log `sent`.
 */
module Mediator {
  import opened Wrappers
  import opened StringExtension

  // ---------------------------------------------------------------------
  // Trimming of route parameters
  // ---------------------------------------------------------------------

  /** The characters of `CharacterSet.whitespacesAndNewlines`: Unicode separators, tab, line breaks and NEL. */
  predicate IsWhitespace(c: char)
  {
    var n := c as int;
    n == 0x20 || 0x09 <= n <= 0x0D || n == 0x85 || n == 0xA0 || n == 0x1680
    || 0x2000 <= n <= 0x200A || n == 0x2028 || n == 0x2029 || n == 0x202F
    || n == 0x205F || n == 0x3000
  }

  /** The string without its leading whitespace. */
  function TrimStart(s: string): string
  {
    if s == [] || !IsWhitespace(s[0]) then s else TrimStart(s[1..])
  }

  /** The string without its trailing whitespace. */
  function TrimEnd(s: string): string
  {
    if s == [] || !IsWhitespace(s[|s| - 1]) then s else TrimEnd(s[..|s| - 1])
  }

  /** `TrimStart` leaves a suffix of `s` that does not start with whitespace, and cuts only whitespace. */
  lemma {:induction false} TrimStartSuffix(s: string)
    ensures |TrimStart(s)| <= |s| && TrimStart(s) == s[|s| - |TrimStart(s)|..]
    ensures TrimStart(s) == [] || !IsWhitespace(TrimStart(s)[0])
    ensures forall k :: 0 <= k < |s| - |TrimStart(s)| ==> IsWhitespace(s[k])
  {
    if s != [] && IsWhitespace(s[0]) {
      TrimStartSuffix(s[1..]);
      assert forall k :: 1 <= k < |s| - |TrimStart(s)| ==> s[k] == s[1..][k - 1];
    }
  }

  /** `TrimEnd` leaves a prefix of `s` that does not end with whitespace, and cuts only whitespace. */
  lemma {:induction false} TrimEndPrefix(s: string)
    ensures |TrimEnd(s)| <= |s| && TrimEnd(s) == s[..|TrimEnd(s)|]
    ensures TrimEnd(s) == [] || !IsWhitespace(TrimEnd(s)[|TrimEnd(s)| - 1])
    ensures forall k :: |TrimEnd(s)| <= k < |s| ==> IsWhitespace(s[k])
  {
    if s != [] && IsWhitespace(s[|s| - 1]) {
      TrimEndPrefix(s[..|s| - 1]);
    }
  }

  /**
   * `trimmingCharacters(in: .whitespacesAndNewlines)`: whitespace is cut from
   * both ends, and what is left neither starts nor ends with whitespace.
   */
  function Trim(s: string): (r: string)
    ensures |r| <= |s|
    ensures r == [] || (!IsWhitespace(r[0]) && !IsWhitespace(r[|r| - 1]))
  {
    TrimStartSuffix(s);
    TrimEndPrefix(TrimStart(s));
    var r := TrimEnd(TrimStart(s));
    assert r != [] ==> r[0] == TrimStart(s)[0];
    r
  }

  /** What is left after trimming is made of characters of `s`, and is empty exactly when `s` is all whitespace. */
  lemma TrimKeepsContent(s: string)
    ensures forall c :: c in Trim(s) ==> c in s
    ensures Trim(s) == [] <==> forall k :: 0 <= k < |s| ==> IsWhitespace(s[k])
  {
    TrimStartSuffix(s);
    var t := TrimStart(s);
    TrimEndPrefix(t);
    var r := TrimEnd(t);
    assert forall c :: c in r ==> c in t;
    assert forall c :: c in t ==> c in s;
  }

  /** An identifier without surrounding whitespace is used as it is, so trimming twice is trimming once. */
  lemma TrimIdempotent(s: string)
    ensures (s == [] || (!IsWhitespace(s[0]) && !IsWhitespace(s[|s| - 1]))) ==> Trim(s) == s
    ensures Trim(Trim(s)) == Trim(s)
  {
    forall t: string | t == [] || (!IsWhitespace(t[0]) && !IsWhitespace(t[|t| - 1]))
      ensures Trim(t) == t
    {
      assert TrimStart(t) == t;
      assert TrimEnd(t) == t;
    }
  }

  // ---------------------------------------------------------------------
  // Cache keys
  // ---------------------------------------------------------------------

  /** The key of a session's participant list: `session-` and the id. */
  function SessionKey(sessionID: string): (k: string)
    ensures HasPrefix(k, "session-") && k[8..] == sessionID
  {
    "session-" + sessionID
  }

  /** The key of a session's ceremony-start snapshot: the session key followed by `-start`. */
  function StartKey(sessionID: string): (k: string)
    ensures HasPrefix(k, "session-") && |k| == |sessionID| + 14
    ensures k[8..|k| - 6] == sessionID && k[|k| - 6..] == "-start"
  {
    var k := "session-" + sessionID + "-start";
    assert k[8..|k| - 6] == sessionID;
    k
  }

  /** The key of one recipient's copy of a message: the recipient's inbox prefix followed by the hash. */
  function MessageKey(sessionID: string, recipient: string, messageID: Option<string>, hash: string): (k: string)
    ensures k == InboxPrefix(sessionID, recipient, messageID) + hash
  {
    match messageID
    case Some(id) => sessionID + "-" + recipient + "-" + id + "-" + hash
    case None => sessionID + "-" + recipient + "-" + hash
  }

  /** The prefix a recipient polls its inbox with; it always ends in `-`. */
  function InboxPrefix(sessionID: string, participant: string, messageID: Option<string>): (p: string)
    ensures |p| > 0 && p[|p| - 1] == '-'
  {
    match messageID
    case Some(id) => sessionID + "-" + participant + "-" + id + "-"
    case None => sessionID + "-" + participant + "-"
  }

  /** Every copy deposited for a recipient lies under that recipient's inbox prefix, for the same message id. */
  lemma MessageKeyInInbox(sessionID: string, recipient: string, messageID: Option<string>, hash: string)
    ensures HasPrefix(MessageKey(sessionID, recipient, messageID, hash), InboxPrefix(sessionID, recipient, messageID))
  {
    var p := InboxPrefix(sessionID, recipient, messageID);
    assert MessageKey(sessionID, recipient, messageID, hash) == p + hash;
    assert (p + hash)[..|p|] == p;
  }

  /** Per-recipient isolation: the copies of one message for two different recipients have different keys. */
  lemma MessageKeyRecipientInjective(sessionID: string, r1: string, r2: string, messageID: Option<string>, hash: string)
    ensures MessageKey(sessionID, r1, messageID, hash) == MessageKey(sessionID, r2, messageID, hash) <==> r1 == r2
  {
    var a := sessionID + "-";
    var b := "-" + RoundText(messageID) + hash;
    MessageKeyShape(sessionID, r1, messageID, hash);
    MessageKeyShape(sessionID, r2, messageID, hash);
    var k1, k2 := a + r1 + b, a + r2 + b;
    if k1 == k2 {
      assert |r1| == |r2|;
      assert r1 == k1[|a|..|a| + |r1|];
      assert r2 == k2[|a|..|a| + |r2|];
    }
  }

  // A message key is the session part, the recipient, and the id-and-hash part.
  lemma MessageKeyShape(sessionID: string, recipient: string, messageID: Option<string>, hash: string)
    ensures MessageKey(sessionID, recipient, messageID, hash)
            == (sessionID + "-") + recipient + ("-" + RoundText(messageID) + hash)
  {
  }

  // The text a message id adds to a key.
  function RoundText(messageID: Option<string>): string
  {
    match messageID
    case Some(id) => id + "-"
    case None => ""
  }

  /**
   * The trailing `-` of the inbox prefix does not separate identities that
   * themselves contain `-`: a copy deposited for `A-B` lies under the inbox
   * prefix of `A`.
   */
  lemma InboxPrefixClash()
    ensures HasPrefix(MessageKey("s", "A-B", None, "h"), InboxPrefix("s", "A", None))
    ensures "A-B" != "A"
  {
  }

  /** A session named `<sid>-start` has the same key as the start snapshot of `<sid>`. */
  lemma SessionKeyMeetsStartKey(sessionID: string)
    ensures SessionKey(sessionID + "-start") == StartKey(sessionID)
    ensures SessionKey(sessionID) != StartKey(sessionID)
  {
    assert |SessionKey(sessionID)| < |StartKey(sessionID)|;
  }

  // ---------------------------------------------------------------------
  // Values, responses, frames
  // ---------------------------------------------------------------------

  /** A relayed message; the relay never reads the body. */
  datatype Message = Message(from: string, to: seq<string>, body: string, hash: string)

  /** What the cache stores: a session (participant list or start snapshot) or one copy of a message. */
  datatype CacheValue =
    | SessionValue(sessionID: string, participants: seq<string>)
    | MessageValue(message: Message)

  /** The HTTP answers the handlers give. */
  datatype Response =
    | OkText(text: string)
    | OkParticipants(participants: seq<string>)
    | OkMessages(messages: seq<Message>)
    | Created
    | Accepted
    | BadRequest(reason: string)
    | NotFound
    | NotAcceptable

  /** A WebSocket connection, compared by identity. */
  datatype Socket = Socket(id: nat)

  /** One text frame written to a connection. */
  datatype Frame = Frame(socket: Socket, text: string)

  /** The participant list stored under `key`, if a session value is stored there. */
  function ParticipantsAt(cache: map<string, CacheValue>, key: string): (r: Option<seq<string>>)
    ensures r.Some? <==> key in cache && cache[key].SessionValue?
    ensures r.Some? ==> r.value == cache[key].participants
  {
    if key in cache && cache[key].SessionValue? then Some(cache[key].participants) else None
  }

  predicate NoDuplicates(s: seq<string>)
  {
    forall i, j :: 0 <= i < j < |s| ==> s[i] != s[j]
  }

  // ---------------------------------------------------------------------
  // Participant registration
  // ---------------------------------------------------------------------

  /** The position of the first `x` in `s`; `|s|` when there is none. */
  function FirstIndex(s: seq<string>, x: string): (i: nat)
    ensures i <= |s|
    ensures i < |s| <==> x in s
    ensures i < |s| ==> s[i] == x
    ensures forall k :: 0 <= k < i && k < |s| ==> s[k] != x
  {
    if s == [] then 0 else if s[0] == x then 0 else 1 + FirstIndex(s[1..], x)
  }

  /** Appending an element moves no first position: those of the elements already there stay, a new one is at the end. */
  lemma FirstIndexSnoc(s: seq<string>, y: string)
    ensures forall x :: x in s ==> FirstIndex(s + [y], x) == FirstIndex(s, x)
    ensures y !in s ==> FirstIndex(s + [y], y) == |s|
  {
    forall x | x in s
      ensures FirstIndex(s + [y], x) == FirstIndex(s, x)
    {
      var j := FirstIndex(s, x);
      assert (s + [y])[j] == x;
    }
  }

  /**
   * The list after registering `posted` on `existing`: the existing list stays
   * in front, and behind it come exactly the posted ids not already present,
   * each once, in the order of their first appearance in `posted`.
   */
  function Merge(existing: seq<string>, posted: seq<string>): (r: seq<string>)
    ensures |existing| <= |r| && r[..|existing|] == existing
    ensures forall x :: x in r <==> x in existing || x in posted
    ensures forall i :: |existing| <= i < |r| ==> r[i] in posted && r[i] !in existing
    ensures forall i, j :: |existing| <= i < j < |r| ==> FirstIndex(posted, r[i]) < FirstIndex(posted, r[j])
  {
    if posted == [] then existing
    else
      var front := posted[..|posted| - 1];
      var m := Merge(existing, front);
      var p := posted[|posted| - 1];
      assert posted == front + [p];
      FirstIndexSnoc(front, p);
      if p in m then m else m + [p]
  }

  /** Merging never introduces a duplicate. */
  lemma {:induction false} MergeNoDuplicates(existing: seq<string>, posted: seq<string>)
    requires NoDuplicates(existing)
    ensures NoDuplicates(Merge(existing, posted))
  {
    if posted != [] {
      MergeNoDuplicates(existing, posted[..|posted| - 1]);
    }
  }

  /** Posting ids that are all present already changes nothing. */
  lemma {:induction false} MergeOfPresent(existing: seq<string>, posted: seq<string>)
    requires forall x :: x in posted ==> x in existing
    ensures Merge(existing, posted) == existing
  {
    if posted != [] {
      MergeOfPresent(existing, posted[..|posted| - 1]);
    }
  }

  /** Registering the same list twice has the effect of registering it once. */
  lemma MergeIdempotent(existing: seq<string>, posted: seq<string>)
    ensures Merge(Merge(existing, posted), posted) == Merge(existing, posted)
  {
    MergeOfPresent(Merge(existing, posted), posted);
  }

  /** Registering `p` and then `q` is registering `p + q` at once. */
  lemma {:induction false} MergeAppend(existing: seq<string>, p: seq<string>, q: seq<string>)
    ensures Merge(Merge(existing, p), q) == Merge(existing, p + q)
  {
    if q == [] {
      assert p + q == p;
    } else {
      MergeAppend(existing, p, q[..|q| - 1]);
      assert (p + q)[..|p + q| - 1] == p + q[..|q| - 1];
    }
  }

  /** The cache after a participant registration for `sessionID`. */
  function RegisterParticipants(cache: map<string, CacheValue>, sessionID: string, posted: seq<string>)
    : (r: map<string, CacheValue>)
    ensures forall k :: k != SessionKey(sessionID) ==> (k in r <==> k in cache)
    ensures forall k :: k in cache && k != SessionKey(sessionID) ==> r[k] == cache[k]
    ensures SessionKey(sessionID) !in cache ==> ParticipantsAt(r, SessionKey(sessionID)) == Some(posted)
    ensures ParticipantsAt(cache, SessionKey(sessionID)).Some? ==>
              ParticipantsAt(r, SessionKey(sessionID))
              == Some(Merge(ParticipantsAt(cache, SessionKey(sessionID)).value, posted))
    ensures SessionKey(sessionID) in cache && cache[SessionKey(sessionID)].MessageValue? ==> r == cache
  {
    var key := SessionKey(sessionID);
    if key !in cache then cache[key := SessionValue(sessionID, posted)]
    else if cache[key].SessionValue? then
      cache[key := cache[key].(participants := Merge(cache[key].participants, posted))]
    else cache
  }

  /** Registering `["A", "B"]` and then `["C"]` on a new session lists `["A", "B", "C"]`. */
  lemma RegisterScenario()
    ensures ParticipantsAt(RegisterParticipants(RegisterParticipants(map[], "s1", ["A", "B"]), "s1", ["C"]),
                           SessionKey("s1")) == Some(["A", "B", "C"])
  {
    var c1 := RegisterParticipants(map[], "s1", ["A", "B"]);
    assert ParticipantsAt(c1, SessionKey("s1")) == Some(["A", "B"]);
    assert Merge(["A", "B"], ["C"]) == ["A", "B", "C"] by {
      assert Merge(["A", "B"], ["C"][..0]) == ["A", "B"];
    }
  }

  // ---------------------------------------------------------------------
  // Message deposit and polling
  // ---------------------------------------------------------------------

  /** The keys a deposit for `recipients` writes. */
  function DepositKeys(sessionID: string, messageID: Option<string>, hash: string, recipients: seq<string>): set<string>
  {
    set r | r in recipients :: MessageKey(sessionID, r, messageID, hash)
  }

  /**
   * The cache after depositing `message` for each of `recipients`: one copy
   * under each recipient's key, every other key as before.
   */
  function Deposit(cache: map<string, CacheValue>, sessionID: string, messageID: Option<string>,
                   message: Message, recipients: seq<string>): (r: map<string, CacheValue>)
    ensures r.Keys == cache.Keys + DepositKeys(sessionID, messageID, message.hash, recipients)
    ensures forall k :: k in r ==>
              r[k] == if k in DepositKeys(sessionID, messageID, message.hash, recipients)
                      then MessageValue(message) else cache[k]
  {
    if recipients == [] then cache
    else
      var n := |recipients| - 1;
      var front := recipients[..n];
      assert recipients == front + [recipients[n]];
      assert DepositKeys(sessionID, messageID, message.hash, recipients)
             == DepositKeys(sessionID, messageID, message.hash, front)
                + {MessageKey(sessionID, recipients[n], messageID, message.hash)};
      Deposit(cache, sessionID, messageID, message, front)
        [MessageKey(sessionID, recipients[n], messageID, message.hash) := MessageValue(message)]
  }

  // Depositing for one more recipient stores one more copy, under that recipient's key.
  lemma DepositStep(cache: map<string, CacheValue>, sessionID: string, messageID: Option<string>,
                    message: Message, recipients: seq<string>, i: nat)
    requires i < |recipients|
    ensures Deposit(cache, sessionID, messageID, message, recipients[..i + 1])
            == Deposit(cache, sessionID, messageID, message, recipients[..i])
                 [MessageKey(sessionID, recipients[i], messageID, message.hash) := MessageValue(message)]
  {
    assert recipients[..i + 1][..i] == recipients[..i];
  }

  /** The keys of `keys` that start with `prefix` and hold a message. */
  function MatchingKeys(cache: map<string, CacheValue>, keys: seq<string>, prefix: string): set<string>
  {
    set k | k in keys && k in cache && HasPrefix(k, prefix) && cache[k].MessageValue?
  }

  /**
   * `compactMap` over the keys (in the cache's enumeration order) that start
   * with `prefix`: the messages stored under them; other values are skipped.
   */
  function Poll(cache: map<string, CacheValue>, keys: seq<string>, prefix: string): (messages: seq<Message>)
    ensures |messages| <= |keys|
    ensures forall m :: m in messages ==>
              exists k :: k in keys && k in cache && HasPrefix(k, prefix) && cache[k] == MessageValue(m)
    ensures forall k :: k in keys && k in cache && HasPrefix(k, prefix) && cache[k].MessageValue? ==>
              cache[k].message in messages
  {
    if keys == [] then []
    else
      var rest := Poll(cache, keys[1..], prefix);
      var k := keys[0];
      assert forall j :: j in keys ==> j == k || j in keys[1..];
      if HasPrefix(k, prefix) && k in cache && cache[k].MessageValue? then [cache[k].message] + rest else rest
  }

  /** Over keys without repeats, the poll has one entry per matching key holding a message. */
  lemma {:induction false} PollCountsMatchingKeys(cache: map<string, CacheValue>, keys: seq<string>, prefix: string)
    requires NoDuplicates(keys)
    ensures |Poll(cache, keys, prefix)| == |MatchingKeys(cache, keys, prefix)|
  {
    if keys == [] {
      assert MatchingKeys(cache, keys, prefix) == {};
    } else {
      NoDuplicatesTail(keys);
      PollCountsMatchingKeys(cache, keys[1..], prefix);
      MatchingKeysCons(cache, keys, prefix);
    }
  }

  // The tail of a list without repeats has none either, and lacks the head.
  lemma NoDuplicatesTail(keys: seq<string>)
    requires NoDuplicates(keys) && keys != []
    ensures NoDuplicates(keys[1..]) && keys[0] !in keys[1..]
  {
    var tail := keys[1..];
    forall i, j | 0 <= i < j < |tail|
      ensures tail[i] != tail[j]
    {
      assert tail[i] == keys[i + 1] && tail[j] == keys[j + 1];
    }
    forall i | 0 <= i < |tail|
      ensures tail[i] != keys[0]
    {
      assert tail[i] == keys[i + 1];
    }
  }

  // The matching keys of a list are those of its tail, plus the head when it matches.
  lemma MatchingKeysCons(cache: map<string, CacheValue>, keys: seq<string>, prefix: string)
    requires keys != []
    ensures MatchingKeys(cache, keys, prefix)
            == MatchingKeys(cache, keys[1..], prefix)
               + (if HasPrefix(keys[0], prefix) && keys[0] in cache && cache[keys[0]].MessageValue? then {keys[0]} else {})
  {
    assert forall j :: j in keys <==> j == keys[0] || j in keys[1..];
  }

  /** Polling with no matching message key gives an empty list, not an error. */
  lemma PollEmpty(cache: map<string, CacheValue>, keys: seq<string>, prefix: string)
    requires forall k :: k in keys && k in cache && HasPrefix(k, prefix) ==> !cache[k].MessageValue?
    ensures Poll(cache, keys, prefix) == []
  {
  }

  /** After a deposit, each recipient's poll (same session and message id) finds the message. */
  lemma DepositThenPoll(cache: map<string, CacheValue>, sessionID: string, messageID: Option<string>,
                        message: Message, recipient: string, keys: seq<string>)
    requires recipient in message.to
    requires forall k :: k in keys <==> k in Deposit(cache, sessionID, messageID, message, message.to)
    ensures message in Poll(Deposit(cache, sessionID, messageID, message, message.to), keys,
                            InboxPrefix(sessionID, recipient, messageID))
  {
    var key := MessageKey(sessionID, recipient, messageID, message.hash);
    assert key in DepositKeys(sessionID, messageID, message.hash, message.to);
    MessageKeyInInbox(sessionID, recipient, messageID, message.hash);
  }

  /**
   * A deposit for `["B"]` with hash `h1` in session `s1` is found by B's poll;
   * once that one key is deleted, B's poll is empty again.
   */
  lemma DepositPollDeleteScenario(message: Message)
    requires message.to == ["B"] && message.hash == "h1"
    ensures var key := MessageKey("s1", "B", None, "h1");
            var c := Deposit(map[], "s1", None, message, message.to);
            Poll(c, [key], InboxPrefix("s1", "B", None)) == [message]
            && (c - {key}) == map[]
  {
    var key := MessageKey("s1", "B", None, "h1");
    assert DepositKeys("s1", None, "h1", ["B"]) == {key};
    MessageKeyInInbox("s1", "B", None, "h1");
  }

  // ---------------------------------------------------------------------
  // WebSocket payloads
  // ---------------------------------------------------------------------

  datatype HelloMessage = HelloMessage(clientKey: string)
  datatype SessionMessage = SessionMessage(sessionID: string, clientKey: string)
  datatype StartTSSMessage = StartTSSMessage(committee: seq<string>)
  datatype TSSRoutingMessage = TSSRoutingMessage(to: string)

  /** The envelope kinds of the control channel. */
  datatype Header = HelloHeader | DropSession | EndSession | JoinSession | StartSession | StartTSS | TSSRouting

  /** A decoded envelope: its kind and its still-encoded body. */
  datatype Envelope = Envelope(header: Header, body: string)

  /** The JSON decoders for the envelope bodies (foreign code); `None` is a body that does not decode. */
  datatype Decoders = Decoders(
    hello: string -> Option<HelloMessage>,
    session: string -> Option<SessionMessage>,
    startTss: string -> Option<StartTSSMessage>,
    routing: string -> Option<TSSRoutingMessage>)

  /** The committee members that are connected, in committee order. */
  function ConnectedMembers(clients: map<string, Socket>, committee: seq<string>): (members: seq<string>)
    ensures |members| <= |committee|
    ensures forall x :: x in members <==> x in committee && x in clients
  {
    if committee == [] then []
    else
      var n := |committee| - 1;
      assert committee == committee[..n] + [committee[n]];
      var front := ConnectedMembers(clients, committee[..n]);
      if committee[n] in clients then front + [committee[n]] else front
  }

  /** A one-member committee keeps its member exactly when it is connected. */
  lemma ConnectedMembersSingle(clients: map<string, Socket>, x: string)
    ensures ConnectedMembers(clients, [x]) == if x in clients then [x] else []
  {
    assert [x][..0] == [];
  }

  /**
   * A committee in two parts is filtered part by part; with
   * `ConnectedMembersSingle` this makes `ConnectedMembers` the order-keeping
   * filter of the committee.
   */
  lemma {:induction false} ConnectedMembersAppend(clients: map<string, Socket>, a: seq<string>, b: seq<string>)
    ensures ConnectedMembers(clients, a + b) == ConnectedMembers(clients, a) + ConnectedMembers(clients, b)
  {
    if b == [] {
      assert a + b == a;
    } else {
      var n := |b| - 1;
      var ab := a + b;
      ConnectedMembersAppend(clients, a, b[..n]);
      assert ab[..|ab| - 1] == a + b[..n];
      assert ab[|ab| - 1] == b[n];
      assert ConnectedMembers(clients, ab)
             == ConnectedMembers(clients, a + b[..n]) + (if b[n] in clients then [b[n]] else []);
      assert ConnectedMembers(clients, b)
             == ConnectedMembers(clients, b[..n]) + (if b[n] in clients then [b[n]] else []);
    }
  }

  /**
   * The frames a StartTSS forward writes: the received text to each connected
   * committee member, in committee order, and to nobody else.
   */
  function CommitteeFrames(clients: map<string, Socket>, committee: seq<string>, content: string): (frames: seq<Frame>)
    ensures |frames| <= |committee|
    ensures forall f :: f in frames ==> f.text == content && f.socket in clients.Values
    ensures forall i :: 0 <= i < |committee| && committee[i] in clients ==> Frame(clients[committee[i]], content) in frames
  {
    if committee == [] then []
    else
      var n := |committee| - 1;
      var front := CommitteeFrames(clients, committee[..n], content);
      assert committee == committee[..n] + [committee[n]];
      assert forall i :: 0 <= i < n ==> committee[i] == committee[..n][i];
      if committee[n] in clients then front + [Frame(clients[committee[n]], content)] else front
  }

  /** Frame j goes to the j-th connected committee member: one frame per member, in committee order. */
  lemma {:induction false} CommitteeFramesFollowMembers(clients: map<string, Socket>, committee: seq<string>, content: string)
    ensures |CommitteeFrames(clients, committee, content)| == |ConnectedMembers(clients, committee)|
    ensures forall j :: 0 <= j < |CommitteeFrames(clients, committee, content)| ==>
              ConnectedMembers(clients, committee)[j] in clients
              && CommitteeFrames(clients, committee, content)[j]
                 == Frame(clients[ConnectedMembers(clients, committee)[j]], content)
  {
    if committee != [] {
      var n := |committee| - 1;
      CommitteeFramesFollowMembers(clients, committee[..n], content);
    }
  }

  /** Nobody outside the committee is written to: every frame is the content sent to a connected member. */
  lemma CommitteeFramesOnlyMembers(clients: map<string, Socket>, committee: seq<string>, content: string)
    ensures forall f :: f in CommitteeFrames(clients, committee, content) ==>
              exists x :: x in committee && x in clients && f == Frame(clients[x], content)
  {
    var frames := CommitteeFrames(clients, committee, content);
    var members := ConnectedMembers(clients, committee);
    CommitteeFramesFollowMembers(clients, committee, content);
    forall f | f in frames
      ensures exists x :: x in committee && x in clients && f == Frame(clients[x], content)
    {
      var j :| 0 <= j < |frames| && frames[j] == f;
      assert members[j] in members;
    }
  }

  /** With A and B connected and C not, a committee `[A, B, C]` reaches exactly A and B. */
  lemma CommitteeScenario(a: Socket, b: Socket, content: string)
    ensures CommitteeFrames(map["A" := a, "B" := b], ["A", "B", "C"], content)
            == [Frame(a, content), Frame(b, content)]
  {
    var clients := map["A" := a, "B" := b];
    assert ["A", "B", "C"][..2] == ["A", "B"];
    assert ["A", "B"][..1] == ["A"];
    assert ["A"][..0] == [];
    assert CommitteeFrames(clients, [], content) == [];
    assert CommitteeFrames(clients, ["A"], content) == [Frame(a, content)];
    assert CommitteeFrames(clients, ["A", "B"], content) == [Frame(a, content), Frame(b, content)];
  }

  // ---------------------------------------------------------------------
  // The relay
  // ---------------------------------------------------------------------

  /** `Mediator`: the relay's shared state. */
  class Mediator {
    var cache: map<string, CacheValue>
    var clients: map<string, Socket>
    var sessions: map<string, string>
    var sent: seq<Frame>

    /** A relay with nothing stored, nobody connected and nothing written. */
    constructor ()
      ensures cache == map[] && clients == map[] && sessions == map[] && sent == []
    {
      cache, clients, sessions, sent := map[], map[], map[], [];
    }

    /**
     * `postSession`: registers the posted participants under the trimmed
     * session id. A value of another kind under the key is left alone; the
     * answer is `created` either way.
     */
    method PostSession(sessionID: Option<string>, body: Option<seq<string>>) returns (resp: Response)
      modifies this
      ensures sessionID.None? ==> resp == BadRequest("sessionID is empty") && cache == old(cache)
      ensures sessionID.Some? && body.None? ==> resp == BadRequest("invalid json payload") && cache == old(cache)
      ensures sessionID.Some? && body.Some? ==>
                resp == Created && cache == RegisterParticipants(old(cache), Trim(sessionID.value), body.value)
      ensures clients == old(clients) && sessions == old(sessions) && sent == old(sent)
    {
      if sessionID.None? {
        return BadRequest("sessionID is empty");
      }
      var cleanSessionID := Trim(sessionID.value);
      var key := SessionKey(cleanSessionID);
      if body.None? {
        return BadRequest("invalid json payload");
      }
      var p := body.value;
      if key in cache {
        if cache[key].SessionValue? {
          var cachedValue := cache[key];
          var participants := cachedValue.participants;
          for i := 0 to |p|
            invariant participants == Merge(cachedValue.participants, p[..i])
            invariant cache == old(cache)
          {
            if p[i] !in participants {
              participants := participants + [p[i]];
            }
            assert p[..i + 1][..i] == p[..i];
          }
          assert p[..|p|] == p;
          cache := cache[key := cachedValue.(participants := participants)];
        }
      } else {
        cache := cache[key := SessionValue(cleanSessionID, p)];
      }
      return Created;
    }

    /** `deleteSession`: removes the participant list and the start snapshot, and answers ok even when neither existed. */
    method DeleteSession(sessionID: Option<string>) returns (resp: Response)
      modifies this
      ensures sessionID.None? ==> resp == BadRequest("sessionID is empty") && cache == old(cache)
      ensures sessionID.Some? ==>
                resp == OkText("")
                && cache == old(cache) - {SessionKey(Trim(sessionID.value)), StartKey(Trim(sessionID.value))}
      ensures clients == old(clients) && sessions == old(sessions) && sent == old(sent)
    {
      if sessionID.None? {
        return BadRequest("sessionID is empty");
      }
      var cleanSessionID := Trim(sessionID.value);
      var key := SessionKey(cleanSessionID);
      cache := cache - {key};
      cache := cache - {StartKey(cleanSessionID)};
      return OkText("");
    }

    /** `getSession`: the participant list of the trimmed session id, or not found (also for a value of another kind). */
    function GetSession(sessionID: Option<string>): (resp: Response)
      reads this
      ensures sessionID.None? ==> resp == BadRequest("sessionID is empty")
      ensures sessionID.Some? ==>
                match ParticipantsAt(cache, SessionKey(Trim(sessionID.value)))
                case Some(participants) => resp == OkParticipants(participants)
                case None => resp == NotFound
    {
      if sessionID.None? then BadRequest("sessionID is empty")
      else
        var key := SessionKey(Trim(sessionID.value));
        if key in cache && cache[key].SessionValue? then OkParticipants(cache[key].participants)
        else NotFound
    }

    /**
     * `startKeygenOrKeysign`: POST replaces the start snapshot with exactly
     * the posted list; GET reads it back (not found when absent, not
     * acceptable when a value of another kind is stored there); any other
     * method is not found.
     */
    method StartKeygenOrKeysign(sessionID: Option<string>, httpMethod: string, body: Option<seq<string>>)
      returns (resp: Response)
      modifies this
      ensures sessionID.None? ==> resp == BadRequest("sessionID is empty") && cache == old(cache)
      ensures sessionID.Some? && httpMethod == "POST" && body.None? ==> resp == BadRequest("") && cache == old(cache)
      ensures sessionID.Some? && httpMethod == "POST" && body.Some? ==>
                resp == OkText("")
                && cache == old(cache)[StartKey(Trim(sessionID.value)) := SessionValue(Trim(sessionID.value), body.value)]
      ensures sessionID.Some? && httpMethod == "POST" && body.Some? ==>
                ParticipantsAt(cache, StartKey(Trim(sessionID.value))) == Some(body.value)
      ensures sessionID.Some? && httpMethod == "GET" ==>
                cache == old(cache)
                && resp == (var key := StartKey(Trim(sessionID.value));
                            if key !in old(cache) then NotFound
                            else if old(cache)[key].SessionValue? then OkParticipants(old(cache)[key].participants)
                            else NotAcceptable)
      ensures sessionID.Some? && httpMethod != "POST" && httpMethod != "GET" ==> resp == NotFound && cache == old(cache)
      ensures clients == old(clients) && sessions == old(sessions) && sent == old(sent)
    {
      if sessionID.None? {
        return BadRequest("sessionID is empty");
      }
      var cleanSessionID := Trim(sessionID.value);
      var key := StartKey(cleanSessionID);
      if httpMethod == "POST" {
        if body.None? {
          return BadRequest("");
        }
        cache := cache[key := SessionValue(cleanSessionID, body.value)];
        return OkText("");
      } else if httpMethod == "GET" {
        if key !in cache {
          return NotFound;
        }
        var cachedSession := cache[key];
        if cachedSession.SessionValue? {
          return OkParticipants(cachedSession.participants);
        }
        return NotAcceptable;
      } else {
        return NotFound;
      }
    }

    /**
     * `sendMessage`: stores one copy of the message per recipient under
     * `<sid>-<recipient>-[<message id>-]<hash>` and answers accepted; an
     * undecodable body is a bad request.
     */
    method SendMessage(sessionID: Option<string>, messageID: Option<string>, body: Option<Message>)
      returns (resp: Response)
      modifies this
      ensures sessionID.None? ==> resp == BadRequest("sessionID is empty") && cache == old(cache)
      ensures sessionID.Some? && body.None? ==> resp == BadRequest("fail to decode payload") && cache == old(cache)
      ensures sessionID.Some? && body.Some? ==>
                resp == Accepted
                && cache == Deposit(old(cache), Trim(sessionID.value), messageID, body.value, body.value.to)
      ensures clients == old(clients) && sessions == old(sessions) && sent == old(sent)
    {
      if sessionID.None? {
        return BadRequest("sessionID is empty");
      }
      var cleanSessionID := Trim(sessionID.value);
      if body.None? {
        return BadRequest("fail to decode payload");
      }
      var message := body.value;
      for i := 0 to |message.to|
        invariant cache == Deposit(old(cache), cleanSessionID, messageID, message, message.to[..i])
        invariant clients == old(clients) && sessions == old(sessions) && sent == old(sent)
      {
        var recipient := message.to[i];
        var key := MessageKey(cleanSessionID, recipient, messageID, message.hash);
        DepositStep(old(cache), cleanSessionID, messageID, message, message.to, i);
        cache := cache[key := MessageValue(message)];
      }
      assert message.to[..|message.to|] == message.to;
      return Accepted;
    }

    /**
     * `getMessages`: the messages stored under the inbox prefix of the
     * trimmed session and participant (and the message id when given).
     * `allKeys` is the cache's key enumeration, each key once, in an order the
     * cache does not fix; the result holds exactly the messages under matching
     * keys, one entry per key.
     */
    function GetMessages(sessionID: Option<string>, participantKey: Option<string>, messageID: Option<string>,
                         allKeys: seq<string>): (resp: Response)
      reads this
      requires forall k :: k in allKeys <==> k in cache
      requires NoDuplicates(allKeys)
      ensures sessionID.None? ==> resp == BadRequest("sessionID is empty")
      ensures sessionID.Some? && participantKey.None? ==> resp == BadRequest("participantKey is empty")
      ensures sessionID.Some? && participantKey.Some? ==> resp.OkMessages?
      ensures sessionID.Some? && participantKey.Some? ==>
                forall m :: m in resp.messages <==>
                  exists k :: k in cache && cache[k] == MessageValue(m)
                              && HasPrefix(k, InboxPrefix(Trim(sessionID.value), Trim(participantKey.value), messageID))
      ensures sessionID.Some? && participantKey.Some? ==>
                |resp.messages|
                == |set k | k in cache && cache[k].MessageValue?
                            && HasPrefix(k, InboxPrefix(Trim(sessionID.value), Trim(participantKey.value), messageID))|
    {
      if sessionID.None? then BadRequest("sessionID is empty")
      else if participantKey.None? then BadRequest("participantKey is empty")
      else
        var keyPrefix := InboxPrefix(Trim(sessionID.value), Trim(participantKey.value), messageID);
        PollCountsMatchingKeys(cache, allKeys, keyPrefix);
        assert MatchingKeys(cache, allKeys, keyPrefix)
               == set k | k in cache && cache[k].MessageValue? && HasPrefix(k, keyPrefix);
        OkMessages(Poll(cache, allKeys, keyPrefix))
    }

    /**
     * `deleteMessage`: removes exactly the key built from the trimmed session
     * and participant, the message id when given, and the hash as sent.
     */
    method DeleteMessage(sessionID: Option<string>, participantKey: Option<string>, hash: Option<string>,
                         messageID: Option<string>) returns (resp: Response)
      modifies this
      ensures sessionID.None? ==> resp == BadRequest("sessionID is empty") && cache == old(cache)
      ensures sessionID.Some? && participantKey.None? ==> resp == BadRequest("participantKey is empty") && cache == old(cache)
      ensures sessionID.Some? && participantKey.Some? && hash.None? ==> resp == BadRequest("hash is empty") && cache == old(cache)
      ensures sessionID.Some? && participantKey.Some? && hash.Some? ==>
                resp == OkText("")
                && cache == old(cache) - {MessageKey(Trim(sessionID.value), Trim(participantKey.value), messageID, hash.value)}
      ensures clients == old(clients) && sessions == old(sessions) && sent == old(sent)
    {
      if sessionID.None? {
        return BadRequest("sessionID is empty");
      }
      var cleanSessionID := Trim(sessionID.value);
      if participantKey.None? {
        return BadRequest("participantKey is empty");
      }
      var cleanParticipantKey := Trim(participantKey.value);
      if hash.None? {
        return BadRequest("hash is empty");
      }
      var key := MessageKey(cleanSessionID, cleanParticipantKey, messageID, hash.value);
      cache := cache - {key};
      return OkText("");
    }

    /** `processHelloMessage`: binds the client key to the connection, replacing an earlier binding. */
    method ProcessHelloMessage(session: Socket, payload: Option<HelloMessage>)
      modifies this
      ensures payload.Some? ==> clients == old(clients)[payload.value.clientKey := session]
      ensures payload.None? ==> clients == old(clients)
      ensures cache == old(cache) && sessions == old(sessions) && sent == old(sent)
    {
      if payload.Some? {
        clients := clients[payload.value.clientKey := session];
      }
    }

    /** `processStartSession`: records the client key as the session's owner. */
    method ProcessStartSession(payload: Option<SessionMessage>)
      modifies this
      ensures payload.Some? ==> sessions == old(sessions)[payload.value.sessionID := payload.value.clientKey]
      ensures payload.None? ==> sessions == old(sessions)
      ensures cache == old(cache) && clients == old(clients) && sent == old(sent)
    {
      if payload.Some? {
        sessions := sessions[payload.value.sessionID := payload.value.clientKey];
      }
    }

    /** `processEndSession`: forgets the session's owner. */
    method ProcessEndSession(payload: Option<SessionMessage>)
      modifies this
      ensures payload.Some? ==> sessions == old(sessions) - {payload.value.sessionID}
      ensures payload.None? ==> sessions == old(sessions)
      ensures cache == old(cache) && clients == old(clients) && sent == old(sent)
    {
      if payload.Some? {
        sessions := sessions - {payload.value.sessionID};
      }
    }

    /**
     * `processJoinAndDropSession`: forwards the whole envelope, verbatim, to
     * the session's owner, and only when the session has an owner who is
     * connected.
     */
    method ProcessJoinAndDropSession(payload: Option<SessionMessage>, content: string)
      modifies this
      ensures (payload.Some? && payload.value.sessionID in old(sessions) && old(sessions)[payload.value.sessionID] in old(clients))
              ==> sent == old(sent) + [Frame(old(clients)[old(sessions)[payload.value.sessionID]], content)]
      ensures !(payload.Some? && payload.value.sessionID in old(sessions) && old(sessions)[payload.value.sessionID] in old(clients))
              ==> sent == old(sent)
      ensures cache == old(cache) && clients == old(clients) && sessions == old(sessions)
    {
      if payload.None? {
        return;
      }
      if payload.value.sessionID !in sessions {
        return;
      }
      var owner := sessions[payload.value.sessionID];
      if owner !in clients {
        return;
      }
      sent := sent + [Frame(clients[owner], content)];
    }

    /** `processStartTSS`: forwards the envelope, verbatim, to every connected committee member; others are skipped. */
    method ProcessStartTSS(payload: Option<StartTSSMessage>, content: string)
      modifies this
      ensures payload.Some? ==> sent == old(sent) + CommitteeFrames(old(clients), payload.value.committee, content)
      ensures payload.None? ==> sent == old(sent)
      ensures cache == old(cache) && clients == old(clients) && sessions == old(sessions)
    {
      if payload.None? {
        return;
      }
      var committee := payload.value.committee;
      for i := 0 to |committee|
        invariant sent == old(sent) + CommitteeFrames(clients, committee[..i], content)
        invariant cache == old(cache) && clients == old(clients) && sessions == old(sessions)
      {
        assert committee[..i + 1][..i] == committee[..i];
        if committee[i] in clients {
          sent := sent + [Frame(clients[committee[i]], content)];
        }
      }
      assert committee[..|committee|] == committee;
    }

    /** `processTSSRouting`: forwards the envelope, verbatim, to its addressee when connected; otherwise drops it. */
    method ProcessTSSRouting(payload: Option<TSSRoutingMessage>, content: string)
      modifies this
      ensures payload.Some? && payload.value.to in old(clients) ==>
                sent == old(sent) + [Frame(old(clients)[payload.value.to], content)]
      ensures !(payload.Some? && payload.value.to in old(clients)) ==> sent == old(sent)
      ensures cache == old(cache) && clients == old(clients) && sessions == old(sessions)
    {
      if payload.None? {
        return;
      }
      if payload.value.to !in clients {
        return;
      }
      sent := sent + [Frame(clients[payload.value.to], content)];
    }

    /** `OnClientDisconnected`: removes exactly the identities bound to the closed connection. */
    method OnClientDisconnected(session: Socket)
      modifies this
      ensures forall k :: k in clients <==> k in old(clients) && old(clients)[k] != session
      ensures forall k :: k in clients ==> clients[k] == old(clients)[k]
      ensures cache == old(cache) && sessions == old(sessions) && sent == old(sent)
    {
      var keysToDelete: seq<string> := [];
      var unvisited := clients.Keys;
      while unvisited != {}
        invariant unvisited <= clients.Keys
        invariant forall k :: k in keysToDelete <==> k in clients && k !in unvisited && clients[k] == session
        invariant clients == old(clients)
        decreases |unvisited|
      {
        var k :| k in unvisited;
        if clients[k] == session {
          keysToDelete := keysToDelete + [k];
        }
        unvisited := unvisited - {k};
      }
      ghost var before := clients;
      for i := 0 to |keysToDelete|
        invariant forall k :: k in clients <==> k in before && k !in keysToDelete[..i]
        invariant forall k :: k in clients ==> clients[k] == before[k]
        invariant before == old(clients) && cache == old(cache) && sessions == old(sessions) && sent == old(sent)
      {
        assert keysToDelete[..i + 1] == keysToDelete[..i] + [keysToDelete[i]];
        clients := clients - {keysToDelete[i]};
      }
      assert keysToDelete[..|keysToDelete|] == keysToDelete;
    }

    /** `stop`: empties the cache; the connection and owner maps are kept. */
    method Stop()
      modifies this
      ensures cache == map[]
      ensures clients == old(clients) && sessions == old(sessions) && sent == old(sent)
    {
      cache := map[];
    }

    /**
     * `OnWebSocketText`: dispatches a decoded envelope to its handler. The
     * cache is never touched; every frame written carries the received text
     * verbatim to a connection that was bound before; only Hello changes the
     * connections and only StartSession and EndSession the owners. Each
     * header's effect is that of its handler on the decoded body.
     */
    method OnWebSocketText(session: Socket, content: string, envelope: Option<Envelope>, decode: Decoders)
      modifies this
      ensures cache == old(cache)
      ensures |old(sent)| <= |sent| && sent[..|old(sent)|] == old(sent)
      ensures forall i :: |old(sent)| <= i < |sent| ==> sent[i].text == content && sent[i].socket in old(clients).Values
      ensures envelope.None? ==> clients == old(clients) && sessions == old(sessions) && sent == old(sent)
      ensures envelope.Some? && envelope.value.header != HelloHeader ==> clients == old(clients)
      ensures envelope.Some? && envelope.value.header !in {StartSession, EndSession} ==> sessions == old(sessions)
      ensures envelope.Some? && envelope.value.header == HelloHeader ==>
                var p := decode.hello(envelope.value.body);
                clients == (if p.Some? then old(clients)[p.value.clientKey := session] else old(clients))
                && sent == old(sent)
      ensures envelope.Some? && envelope.value.header == StartSession ==>
                var p := decode.session(envelope.value.body);
                sessions == (if p.Some? then old(sessions)[p.value.sessionID := p.value.clientKey] else old(sessions))
                && sent == old(sent)
      ensures envelope.Some? && envelope.value.header == EndSession ==>
                var p := decode.session(envelope.value.body);
                sessions == (if p.Some? then old(sessions) - {p.value.sessionID} else old(sessions))
                && sent == old(sent)
      ensures envelope.Some? && envelope.value.header in {JoinSession, DropSession} ==>
                var p := decode.session(envelope.value.body);
                sent == old(sent) + (if p.Some? && p.value.sessionID in old(sessions) && old(sessions)[p.value.sessionID] in old(clients)
                                     then [Frame(old(clients)[old(sessions)[p.value.sessionID]], content)]
                                     else [])
      ensures envelope.Some? && envelope.value.header == StartTSS ==>
                var p := decode.startTss(envelope.value.body);
                sent == old(sent) + (if p.Some? then CommitteeFrames(old(clients), p.value.committee, content) else [])
      ensures envelope.Some? && envelope.value.header == TSSRouting ==>
                var p := decode.routing(envelope.value.body);
                sent == old(sent) + (if p.Some? && p.value.to in old(clients) then [Frame(old(clients)[p.value.to], content)] else [])
    {
      if envelope.None? {
        return;
      }
      var body := envelope.value.body;
      match envelope.value.header {
        case HelloHeader =>
          ProcessHelloMessage(session, decode.hello(body));
        case DropSession =>
          ProcessJoinAndDropSession(decode.session(body), content);
        case EndSession =>
          ProcessEndSession(decode.session(body));
        case JoinSession =>
          ProcessJoinAndDropSession(decode.session(body), content);
        case StartSession =>
          ProcessStartSession(decode.session(body));
        case StartTSS =>
          ProcessStartTSS(decode.startTss(body), content);
        case TSSRouting =>
          ProcessTSSRouting(decode.routing(body), content);
      }
    }
  }
}
