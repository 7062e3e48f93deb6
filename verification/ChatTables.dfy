/** The chat tables and the statements the two chat repositories run on them. */
module ChatTables {
  import opened Common

  datatype Chat = Chat(user1: int, user2: int, createdAt: int)

  datatype Message = Message(id: int, chatId: int, senderId: int, text: string, createdAt: int)

  /** `members` maps a chat and one of its users to that user's unread count. `messages` is in
      insertion order. */
  datatype Db = Db(
    now: int, chats: map<int, Chat>, members: map<(int, int), nat>, messages: seq<Message>,
    nextChat: int, nextMessage: int)

  const MAX_TEXT := 4096

  /** The clock moves on before a statement. */
  function Elapsed(db: Db, dt: nat): Db {
    db.(now := db.now + dt)
  }

  predicate IsPair(chat: Chat, a: int, b: int) {
    chat.user1 == a && chat.user2 == b
  }

  /** The chat of a pair of users, if there is one. */
  ghost function ChatOf(chats: map<int, Chat>, a: int, b: int): (r: Option<int>)
    ensures r.Some? ==> r.value in chats && IsPair(chats[r.value], a, b)
    ensures r.None? ==> forall id :: id in chats ==> !IsPair(chats[id], a, b)
  {
    if exists id :: id in chats && IsPair(chats[id], a, b)
    then var id :| id in chats && IsPair(chats[id], a, b); Some(id)
    else None
  }

  function InsertChat(db: Db, id: int, a: int, b: int): Db {
    db.(chats := db.chats[id := Chat(a, b, db.now)], nextChat := id + 1)
  }

  function InsertMembers(db: Db, id: int, a: int, b: int): Db {
    db.(members := db.members[(id, a) := 0][(id, b) := 0])
  }

  function ResetUnread(db: Db, chat: int, user: int): Db {
    if (chat, user) in db.members then db.(members := db.members[(chat, user) := 0]) else db
  }

  /** The member rows an insertion by `sender` counts up. */
  function Notified(db: Db, chat: int, sender: int): set<(int, int)> {
    set k | k in db.members && k.0 == chat && k.1 != sender
  }

  predicate Acceptable(db: Db, chat: int, text: string) {
    chat in db.chats && 1 <= |text| <= MAX_TEXT
  }

  /** The one statement that stores a message and counts it as unread. */
  function InsertMessage(db: Db, id: int, chat: int, sender: int, text: string): Db {
    db.(messages := db.messages + [Message(id, chat, sender, text, db.now)], nextMessage := id + 1,
        members := map k | k in db.members ::
          if k in Notified(db, chat, sender) then db.members[k] + 1 else db.members[k])
  }

  /** How many of `ms` are messages to `user` in `chat`. */
  function Unseen(ms: seq<Message>, chat: int, user: int): nat {
    if ms == [] then 0
    else
      var m := ms[|ms| - 1];
      Unseen(ms[..|ms| - 1], chat, user) + if m.chatId == chat && m.senderId != user then 1 else 0
  }

  lemma UnseenMore(ms: seq<Message>, m: Message, chat: int, user: int)
    ensures Unseen(ms + [m], chat, user)
         == Unseen(ms, chat, user) + if m.chatId == chat && m.senderId != user then 1 else 0
  {
    assert (ms + [m])[..|ms|] == ms;
  }

  lemma {:induction false} UnseenNone(ms: seq<Message>, chat: int, user: int)
    requires forall m :: m in ms ==> m.chatId != chat
    ensures Unseen(ms, chat, user) == 0
  {
    if ms != [] {
      assert ms[|ms| - 1] in ms;
      UnseenNone(ms[..|ms| - 1], chat, user);
    }
  }
}
