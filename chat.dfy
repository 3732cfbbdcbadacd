/** The chat service: storing a message and the role-dependent listing of
    messages, oldest first. */
module Chat {
  import opened Common
  import Users

  /** A stored chat message. `user` and `support` reference users; `createdAt`
      is the schema's timestamp. */
  datatype Message = Message(
    id: Id,
    user: Option<Id>,
    message: string,
    support: Option<Id>,
    conversationId: Option<string>,
    createdAt: nat)

  function MessageId(m: Message): Id { m.id }

  /** What the chat schema demands before a save: `message` and `conversationId`
      are required strings. */
  predicate SchemaAccepts(m: Message) {
    m.message != "" && Truthy(m.conversationId)
  }

  /** The document `createMessage` builds: the sender found by `findById` (or
      null) as `user`, and the same as `support` when `isSupport`, else null.
      No `conversationId` is set. */
  function BuildMessage(users: seq<Users.User>, newId: Id, sender: Id, message: string, isSupport: bool, now: nat)
    : (m: Message)
    ensures Users.FindUserById(users, sender).Some? ==> m.user == Some(sender)
    ensures Users.FindUserById(users, sender).None? ==> m.user.None?
    ensures m.support == (if isSupport then m.user else None)
    ensures m.message == message && m.conversationId.None? && m.id == newId && m.createdAt == now
  {
    var found := match Users.FindUserById(users, sender)
                 case None => None
                 case Some(u) => Some(u.id);
    Message(newId, found, message, if isSupport then found else None, None, now)
  }

  /** `createMessage` as written: the built document is saved, and the schema
      refuses it unless it passes validation. */
  function CreateMessage(users: seq<Users.User>, messages: seq<Message>, newId: Id, sender: Id, message: string,
                         isSupport: bool, now: nat)
    : (r: Result<(seq<Message>, Message)>)
    ensures r.Ok? ==> r.value.0 == messages + [r.value.1] && SchemaAccepts(r.value.1)
    ensures r.Err? ==> r.failure == StoreRejected
  {
    var m := BuildMessage(users, newId, sender, message, isSupport, now);
    if SchemaAccepts(m) then Ok((messages + [m], m)) else Err(StoreRejected)
  }

  /** Because the service never sets the required `conversationId`, every
      `createMessage` as written is refused and stores nothing. */
  lemma CreateMessageAlwaysRejected(users: seq<Users.User>, messages: seq<Message>, newId: Id, sender: Id,
                                    message: string, isSupport: bool, now: nat)
    ensures CreateMessage(users, messages, newId, sender, message, isSupport, now) == Err(StoreRejected)
  {
  }

  /** `createMessage` with the conversation id the controller passes it stored
      on the message. */
  function CreateMessageIn(users: seq<Users.User>, messages: seq<Message>, newId: Id, sender: Id, message: string,
                           isSupport: bool, conversationId: Option<string>, now: nat)
    : (r: Result<(seq<Message>, Message)>)
    ensures r.Ok? <==> message != "" && Truthy(conversationId)
    ensures r.Err? ==> r.failure == StoreRejected
    ensures r.Ok? ==> (r.value.0 == messages + [r.value.1] &&
                       r.value.1 == BuildMessage(users, newId, sender, message, isSupport, now).(conversationId := conversationId))
  {
    var m := BuildMessage(users, newId, sender, message, isSupport, now).(conversationId := conversationId);
    if SchemaAccepts(m) then Ok((messages + [m], m)) else Err(StoreRejected)
  }

  /** With a message text and a conversation id, the corrected create stores
      exactly one message, sent by the caller when the caller exists, and with
      the caller as support party exactly when `isSupport`. */
  lemma CreateMessageInStoresSender(users: seq<Users.User>, messages: seq<Message>, newId: Id, sender: Id,
                                    message: string, isSupport: bool, conversationId: string, now: nat)
    requires message != "" && conversationId != ""
    requires Users.FindUserById(users, sender).Some?
    ensures var r := CreateMessageIn(users, messages, newId, sender, message, isSupport, Some(conversationId), now);
      r.Ok? && |r.value.0| == |messages| + 1 && r.value.0[..|messages|] == messages &&
      var m := r.value.1;
      m.user == Some(sender) && m.message == message && m.conversationId == Some(conversationId) &&
      (m.support == Some(sender) <==> isSupport) && (!isSupport ==> m.support.None?)
  {
    var r := CreateMessageIn(users, messages, newId, sender, message, isSupport, Some(conversationId), now);
    assert r.value.0[..|messages|] == messages;
  }

  /** The ascending key of `sort({ createdAt: 'asc' })`. */
  function OldestFirstKey(m: Message): int { m.createdAt as int }

  /** Messages that involve user `id`: as its sender or as its support party. */
  predicate Involves(m: Message, id: Id) {
    m.user == Some(id) || m.support == Some(id)
  }

  /** `getMessages`: an unknown caller reads `role` of `null`; a caller whose
      role is `admin` sees every message, anybody else only the messages that
      involve them; oldest first either way. */
  function GetMessages(users: seq<Users.User>, messages: seq<Message>, caller: Id): (r: Result<seq<Message>>)
    ensures r.Err? <==> Users.FindUserById(users, caller).None?
    ensures r.Err? ==> r.failure == NullDereference
    ensures r.Ok? ==> forall i, j :: 0 <= i < j < |r.value| ==> r.value[i].createdAt <= r.value[j].createdAt
    ensures r.Ok? && Users.FindUserById(users, caller).value.role == "admin" ==> multiset(r.value) == multiset(messages)
    ensures r.Ok? && Users.FindUserById(users, caller).value.role != "admin" ==>
              multiset(r.value) == multiset(Filter(messages, (m: Message) => Involves(m, caller)))
  {
    match Users.FindUserById(users, caller)
    case None => Err(NullDereference)
    case Some(u) =>
      var seen := if u.role == "admin" then messages else Filter(messages, (m: Message) => Involves(m, u.id));
      var o := SortByKey(seen, OldestFirstKey);
      assert forall i, j :: 0 <= i < j < |o| ==> OldestFirstKey(o[i]) <= OldestFirstKey(o[j]);
      Ok(o)
  }

  /** An administrator's listing holds every stored message, each as often as stored. */
  lemma AdminSeesEveryMessage(users: seq<Users.User>, messages: seq<Message>, caller: Id)
    requires Users.FindUserById(users, caller).Some? && Users.FindUserById(users, caller).value.role == "admin"
    ensures var r := GetMessages(users, messages, caller);
      r.Ok? && |r.value| == |messages| && forall m :: m in r.value <==> m in messages
  {
    var r := GetMessages(users, messages, caller).value;
    forall m ensures m in r <==> m in messages {
      assert m in r <==> m in multiset(r);
      assert m in messages <==> m in multiset(messages);
    }
    assert |r| == |multiset(r)| == |multiset(messages)| == |messages|;
  }

  /** Anybody else sees exactly the messages they sent or support. */
  lemma OthersSeeOnlyTheirMessages(users: seq<Users.User>, messages: seq<Message>, caller: Id)
    requires Users.FindUserById(users, caller).Some? && Users.FindUserById(users, caller).value.role != "admin"
    ensures var r := GetMessages(users, messages, caller);
      r.Ok? && forall m :: m in r.value <==> m in messages && (m.user == Some(caller) || m.support == Some(caller))
  {
    var r := GetMessages(users, messages, caller).value;
    var f := Filter(messages, (m: Message) => Involves(m, caller));
    forall m ensures m in r <==> m in f {
      assert m in r <==> m in multiset(r);
      assert m in f <==> m in multiset(f);
    }
  }

  ghost predicate WellFormed(messages: seq<Message>, nextId: Id) {
    UniqueKeys(messages, MessageId) && KeysBelow(messages, MessageId, nextId)
  }

  /** The chat collection. */
  class ChatRoom {
    var messages: seq<Message>
    var nextId: Id

    ghost predicate Valid() reads this {
      WellFormed(messages, nextId)
    }

    constructor (initial: seq<Message>, firstFreeId: Id)
      requires WellFormed(initial, firstFreeId)
      ensures Valid() && messages == initial && nextId == firstFreeId
    {
      messages := initial;
      nextId := firstFreeId;
    }

    /** `createMessage`, storing the conversation id it is given. */
    method Send(users: seq<Users.User>, sender: Id, message: string, isSupport: bool, conversationId: Option<string>, now: nat)
      returns (r: Result<Message>)
      requires Valid()
      modifies this
      ensures Valid()
      ensures var c := CreateMessageIn(users, old(messages), old(nextId), sender, message, isSupport, conversationId, now);
        (c.Ok? ==> r == Ok(c.value.1) && messages == c.value.0 && nextId == old(nextId) + 1) &&
        (c.Err? ==> r == Err(StoreRejected) && messages == old(messages) && nextId == old(nextId))
    {
      var c := CreateMessageIn(users, messages, nextId, sender, message, isSupport, conversationId, now);
      if c.Err? {
        return Err(StoreRejected);
      }
      assert forall k :: 0 <= k < |messages| ==> messages[k].id < nextId;
      messages := c.value.0;
      nextId := nextId + 1;
      r := Ok(c.value.1);
    }
  }
}
