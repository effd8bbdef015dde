/** The conversation bookkeeping of `message.js`: a conversation keeps a
    duplicate-free user list and a message history read back through a
    `slice`-based limit; a user creates conversations and mutes them by id. */
module Messaging {
  import opened Results
  import opened Seqs
  import opened Text

  /** The errors thrown: a plain `Error` from the checks, and the
      `ReferenceError` raised by the `User.name` getter, which reads an
      undeclared variable (message.js:94-96). */
  datatype MessagingError = GenericError | ReferenceError

  /** Object identity of a user. */
  type UserId = nat

  /** A multimedia message. */
  datatype Message = MultimediaMessage(messageId: int, sender: string, receiver: string, timestamp: int,
                                       filePath: string, fileType: string)

  // ---------------------------------------------------------------------
  // The Conversation class

  datatype Conversation = Conversation(users: seq<UserId>, history: seq<Message>)

  /** `new Conversation()`. */
  const EmptyConversation := Conversation([], [])

  /** `addUser`: the user is appended only when not already present. The
      log line after the push reads `user.name`, whose getter throws, so
      adding a new user grows the list and then throws; the grown
      conversation is returned together with that error. */
  function AddUser(c: Conversation, u: UserId): (r: (Conversation, Option<MessagingError>))
    ensures u in r.0.users
    ensures r.0.history == c.history
    ensures u in c.users ==> r == (c, None)
    ensures u !in c.users ==> r.0.users == c.users + [u] && r.1 == Some(ReferenceError)
  {
    if u in c.users then (c, None)
    else (c.(users := c.users + [u]), Some(ReferenceError))
  }

  /** Adding a user twice leaves the list as adding it once, and the second
      call raises nothing; the user list never holds duplicates. */
  lemma AddUserIdempotentAndDistinct(c: Conversation, u: UserId)
    ensures AddUser(AddUser(c, u).0, u) == (AddUser(c, u).0, None)
    ensures NoDuplicates(EmptyConversation.users)
    ensures NoDuplicates(c.users) ==> NoDuplicates(AddUser(c, u).0.users)
  {
  }

  /** `addMessage`: the message goes at the end of the history. */
  function AddMessage(c: Conversation, m: Message): (r: Conversation)
    ensures r.users == c.users
    ensures |r.history| == |c.history| + 1 && r.history[|c.history|] == m
    ensures r.history[..|c.history|] == c.history
  {
    c.(history := c.history + [m])
  }

  /** `getHistory(limit)`. A missing or zero limit gives the whole history;
      any other number `n` gives `history.slice(-n)`. */
  function GetHistory(c: Conversation, limit: Option<int>): (r: seq<Message>)
    ensures limit.None? || limit.value == 0 ==> r == c.history
    ensures limit.Some? && limit.value > 0 ==>
      |r| == Min(limit.value, |c.history|) && r == c.history[|c.history| - |r|..]
    ensures limit.Some? && limit.value < 0 ==> r == c.history[Min(-limit.value, |c.history|)..]
  {
    if limit.Some? && limit.value != 0 then SliceFrom(c.history, -limit.value) else c.history
  }

  /** After adding a message, a limit of one reads back exactly that message,
      and a limit at least as long as the history reads back all of it. */
  lemma LatestMessageIsLast(c: Conversation, m: Message, n: int)
    requires n >= |c.history| + 1
    ensures GetHistory(AddMessage(c, m), Some(1)) == [m]
    ensures GetHistory(AddMessage(c, m), Some(n)) == c.history + [m]
  {
  }

  // ---------------------------------------------------------------------
  // Users and their conversations

  /** The plain object `createConversation` builds. */
  datatype ConversationRecord = ConversationRecord(id: int, participants: seq<UserId>, messages: seq<Message>,
                                                   notificationsMuted: bool)

  datatype User = User(id: UserId, name: string, contactInfo: string, conversations: seq<ConversationRecord>,
                       isOnline: bool)

  /** `new User(name, contactInfo)`: the name must keep a character after
      trimming, then the contact must match the address pattern. */
  function NewUser(id: UserId, name: string, contactInfo: string): (r: Result<User, MessagingError>)
    ensures r.Ok? <==> HasNonWhitespace(name) && MatchesEmailPattern(contactInfo)
    ensures r.Err? ==> r.error == GenericError
    ensures r.Ok? ==> r.value == User(id, name, contactInfo, [], true)
  {
    BlankIffAllWhitespace(name);
    IsEmailMatchesPattern(contactInfo);
    if IsBlank(name) then Err(GenericError)
    else if !IsEmail(contactInfo) then Err(GenericError)
    else Ok(User(id, name, contactInfo, [], true))
  }

  /** `createConversation(users)` with `id` the clock reading: a missing or
      empty list is refused; otherwise the creator followed by the given users
      take part, there are no messages, notifications are on, and the record
      is appended to the creator's conversations. */
  function CreateConversation(u: User, users: Option<seq<UserId>>, id: int): (r: Result<(User, ConversationRecord), MessagingError>)
    ensures r.Err? <==> users.None? || |users.value| == 0
    ensures r.Err? ==> r.error == GenericError
    ensures r.Ok? ==> r.value.1.id == id && r.value.1.messages == [] && !r.value.1.notificationsMuted
    ensures r.Ok? ==>
      |r.value.1.participants| == |users.value| + 1
      && r.value.1.participants[0] == u.id && r.value.1.participants[1..] == users.value
    ensures r.Ok? ==> r.value.0 == u.(conversations := u.conversations + [r.value.1])
  {
    if users.None? || |users.value| == 0 then Err(GenericError)
    else
      var conversation := ConversationRecord(id, [u.id] + users.value, [], false);
      Ok((u.(conversations := u.conversations + [conversation]), conversation))
  }

  /** `after` is `before` with the conversation at index `k`, the first one
      whose id is `id`, muted and every other conversation left as it was. */
  predicate MutedFirstMatch(before: seq<ConversationRecord>, after: seq<ConversationRecord>, id: int, k: int) {
    && 0 <= k < |before| && |after| == |before|
    && before[k].id == id
    && (forall j :: 0 <= j < k ==> before[j].id != id)
    && after[k] == before[k].(notificationsMuted := true)
    && (forall j :: 0 <= j < |before| && j != k ==> after[j] == before[j])
  }

  /** `muteNotifications(id)`: the first conversation with the id is muted and
      every other one is left as it was; an unknown id is an error. */
  function MuteNotifications(u: User, conversationId: int): (r: Result<User, MessagingError>)
    ensures r.Err? <==> forall i :: 0 <= i < |u.conversations| ==> u.conversations[i].id != conversationId
    ensures r.Err? ==> r.error == GenericError
    ensures r.Ok? ==> r.value.(conversations := u.conversations) == u
    ensures r.Ok? ==> |r.value.conversations| == |u.conversations|
    ensures r.Ok? ==> exists k :: MutedFirstMatch(u.conversations, r.value.conversations, conversationId, k)
  {
    match FirstIndex(u.conversations, (c: ConversationRecord) => c.id == conversationId)
    case None => Err(GenericError)
    case Some(k) =>
      var muted := u.conversations[k].(notificationsMuted := true);
      assert MutedFirstMatch(u.conversations, u.conversations[k := muted], conversationId, k);
      Ok(u.(conversations := u.conversations[k := muted]))
  }

  /** Muting twice is muting once. */
  lemma MuteIdempotent(u: User, conversationId: int)
    requires MuteNotifications(u, conversationId).Ok?
    ensures var v := MuteNotifications(u, conversationId).value;
            MuteNotifications(v, conversationId) == Ok(v)
  {
    var v := MuteNotifications(u, conversationId).value;
    var k :| MutedFirstMatch(u.conversations, v.conversations, conversationId, k);
    var w := MuteNotifications(v, conversationId).value;
    assert w.conversations == v.conversations;
  }

  /** A conversation just created can be muted by its id when no earlier
      conversation has that id, and it is the one muted. */
  lemma CreateThenMute(u: User, users: seq<UserId>, id: int)
    requires |users| > 0
    requires forall i :: 0 <= i < |u.conversations| ==> u.conversations[i].id != id
    ensures CreateConversation(u, Some(users), id).Ok?
    ensures MuteNotifications(CreateConversation(u, Some(users), id).value.0, id)
         == Ok(u.(conversations := u.conversations + [ConversationRecord(id, [u.id] + users, [], true)]))
  {
    var v := CreateConversation(u, Some(users), id).value.0;
    assert v.conversations[|u.conversations|].id == id;
    var w := MuteNotifications(v, id).value;
    assert w.conversations == u.conversations + [ConversationRecord(id, [u.id] + users, [], true)];
  }
}
