/** The chat service's calls as a state machine: one step per statement, freely interleaved. */
module ChatMachine {
  import opened Common
  import opened ChatTables

  datatype Request =
    | CreateReq(initiator: int, recipient: int)
    | SendReq(chat: int, sender: int, text: string)
    | ReadReq(chat: int, caller: int)

  datatype Outcome =
    | Opened(id: int, created: bool, at: int)
    | Sent(id: int, at: int, user1: int, user2: int)
    | HasRead
    | Failed(error: Error)

  datatype Pc =
    | CreateInsert
    | CreateMembers(id: int, at: int)
    | SendCheck
    | SendInsert
    | SendParticipants(id: int, at: int)
    | ReadCheck
    | ReadQuery
    | ReadReset
    | Done(outcome: Outcome)

  datatype Call = Call(req: Request, pc: Pc)

  /** `opener` and `resets` are history: the call that inserted a chat, and how many messages had been
      stored when a member's counter was last reset. */
  datatype State = State(db: Db, opener: map<int, int>, resets: map<(int, int), nat>)
  {
    predicate OpenedBy(id: int, c: int) {
      id in opener && opener[id] == c
    }

    /** How many messages there were when the counter of `user` in `chat` was last reset. */
    function ResetAt(chat: int, user: int): nat {
      if (chat, user) in resets then resets[(chat, user)] else 0
    }
  }

  datatype World = World(st: State, calls: map<int, Call>)

  datatype Choice = Choice(dt: nat, fault: Fault, gap: nat)

  datatype Step =
    | Start(c: int, req: Request)
    | Go(c: int, choice: Choice)

  /** What a statement does to the tables. */
  datatype Effect =
    | Nothing
    | NewChat(id: int, a: int, b: int)
    | NewMembers(id: int, a: int, b: int)
    | NewMessage(id: int, chat: int, sender: int, text: string)
    | Reset(chat: int, user: int)

  datatype Move = Move(effect: Effect, pc: Pc)

  function Init(): World {
    World(State(Db(0, map[], map[], [], 1, 1), map[], map[]), map[])
  }

  function Entrypoint(req: Request): Pc {
    match req
    case CreateReq(_, _) => CreateInsert
    case SendReq(_, _, _) => SendCheck
    case ReadReq(_, _) => ReadCheck
  }

  function Low(a: int, b: int): int { if a > b then b else a }

  function High(a: int, b: int): int { if a > b then a else b }

  /** What is left of an effect when its statement fails. */
  function Settle(fault: Fault, effect: Effect): Effect {
    if fault == Lost then Nothing else effect
  }

  function After(fault: Fault, pc: Pc): Pc {
    if fault == Fine then pc else Done(Failed(Unavailable))
  }

  function Apply(st: State, c: int, effect: Effect): State {
    match effect
    case Nothing => st
    case NewChat(id, a, b) => st.(db := InsertChat(st.db, id, a, b), opener := st.opener[id := c])
    case NewMembers(id, a, b) => st.(db := InsertMembers(st.db, id, a, b))
    case NewMessage(id, chat, sender, text) => st.(db := InsertMessage(st.db, id, chat, sender, text))
    case Reset(chat, user) =>
      st.(db := ResetUnread(st.db, chat, user), resets := st.resets[(chat, user) := |st.db.messages|])
  }

  ghost function Decide(st: State, call: Call, ch: Choice): Move {
    match call.req
    case CreateReq(x, y) => DecideCreate(st, Low(x, y), High(x, y), call.pc, ch)
    case SendReq(chat, sender, text) => DecideSend(st, chat, sender, text, call.pc, ch)
    case ReadReq(chat, caller) => DecideRead(st, chat, caller, call.pc, ch)
  }

  function Refused(fault: Fault): Pc {
    Done(Failed(if fault == Fine then ConstraintViolation else Unavailable))
  }

  /** Insert the pair or find its row; whoever inserted it then inserts the two members. */
  ghost function DecideCreate(st: State, a: int, b: int, pc: Pc, ch: Choice): Move {
    var db := st.db;
    match pc
    case CreateInsert =>
      if a >= b then Move(Nothing, Refused(ch.fault))
      else
        (match ChatOf(db.chats, a, b)
         case Some(id) => Move(Nothing, After(ch.fault, Done(Opened(id, false, db.chats[id].createdAt))))
         case None =>
           var id := db.nextChat + ch.gap;
           Move(Settle(ch.fault, NewChat(id, a, b)), After(ch.fault, CreateMembers(id, db.now))))
    case CreateMembers(id, at) =>
      if (id, a) in db.members || (id, b) in db.members || id !in db.chats then Move(Nothing, Refused(ch.fault))
      else Move(Settle(ch.fault, NewMembers(id, a, b)), After(ch.fault, Done(Opened(id, true, at))))
    case _ => Move(Nothing, pc)
  }

  /** The membership check, the insertion and the lookup of the two users to push to. */
  ghost function DecideSend(st: State, chat: int, sender: int, text: string, pc: Pc, ch: Choice): Move {
    var db := st.db;
    match pc
    case SendCheck =>
      Move(Nothing, After(ch.fault, if (chat, sender) in db.members then SendInsert else Done(Failed(PermissionDenied))))
    case SendInsert =>
      if !Acceptable(db, chat, text) then Move(Nothing, Refused(ch.fault))
      else
        var id := db.nextMessage + ch.gap;
        Move(Settle(ch.fault, NewMessage(id, chat, sender, text)),
             After(ch.fault, if Notified(db, chat, sender) == {} then Done(Failed(NotFound))
                             else SendParticipants(id, db.now)))
    case SendParticipants(id, at) =>
      Move(Nothing, After(ch.fault, Done(
        if chat in db.chats then Sent(id, at, db.chats[chat].user1, db.chats[chat].user2) else Failed(NotFound))))
    case _ => Move(Nothing, pc)
  }

  /** The membership check, the page query and the reset of the caller's counter. */
  ghost function DecideRead(st: State, chat: int, caller: int, pc: Pc, ch: Choice): Move {
    match pc
    case ReadCheck =>
      Move(Nothing, After(ch.fault, if (chat, caller) in st.db.members then ReadQuery else Done(Failed(PermissionDenied))))
    case ReadQuery => Move(Nothing, After(ch.fault, ReadReset))
    case ReadReset => Move(Settle(ch.fault, Reset(chat, caller)), After(ch.fault, Done(HasRead)))
    case _ => Move(Nothing, pc)
  }

  function Elapse(st: State, dt: nat): State {
    st.(db := Elapsed(st.db, dt))
  }

  /** One step. A step that is not possible leaves the world as it is. */
  ghost function Next(w: World, s: Step): World {
    match s
    case Start(c, req) => if c in w.calls then w else w.(calls := w.calls[c := Call(req, Entrypoint(req))])
    case Go(c, ch) =>
      if c !in w.calls || w.calls[c].pc.Done? then w
      else
        var st := Elapse(w.st, ch.dt);
        var m := Decide(st, w.calls[c], ch);
        World(Apply(st, c, m.effect), w.calls[c := w.calls[c].(pc := m.pc)])
  }

  ghost function Run(w: World, steps: seq<Step>): World
    decreases |steps|, 1
  {
    if steps == [] then w else RunOn(w, steps)
  }

  ghost function RunOn(w: World, steps: seq<Step>): World
    requires steps != []
    decreases |steps|, 0
  {
    Next(Run(w, steps[..|steps| - 1]), steps[|steps| - 1])
  }

  lemma RunLast(w: World, steps: seq<Step>)
    requires steps != []
    ensures Run(w, steps) == Next(Run(w, steps[..|steps| - 1]), steps[|steps| - 1])
  {
    assert Run(w, steps) == RunOn(w, steps);
  }

  ghost predicate Reachable(w: World) {
    exists steps :: w == Run(Init(), steps)
  }

  lemma ReachableNext(w: World, s: Step)
    requires Reachable(w)
    ensures Reachable(Next(w, s))
  {
    var steps :| w == Run(Init(), steps);
    assert (steps + [s])[..|steps|] == steps;
    assert Next(w, s) == Run(Init(), steps + [s]);
  }

  // ---- What every step keeps ----

  predicate SamePair(a: Chat, b: Chat) {
    a.user1 == b.user1 && a.user2 == b.user2
  }

  ghost predicate ChatsInv(st: State) {
    && (forall id :: id in st.db.chats ==> st.db.chats[id].user1 < st.db.chats[id].user2 && id < st.db.nextChat)
    && (forall i, j :: i in st.db.chats && j in st.db.chats && SamePair(st.db.chats[i], st.db.chats[j]) ==> i == j)
    && st.opener.Keys == st.db.chats.Keys
  }

  /** A chat has no members, or exactly its two users. */
  ghost predicate MembersInv(db: Db) {
    && (forall chat, user :: (chat, user) in db.members ==>
          chat in db.chats && (user == db.chats[chat].user1 || user == db.chats[chat].user2))
    && (forall id :: id in db.chats ==>
          ((id, db.chats[id].user1) in db.members <==> (id, db.chats[id].user2) in db.members))
  }

  /** Messages come from members, with growing ids and timestamps that never go back. */
  ghost predicate MessagesInv(db: Db) {
    && (forall i :: 0 <= i < |db.messages| ==>
          (db.messages[i].chatId, db.messages[i].senderId) in db.members
          && db.messages[i].id < db.nextMessage && db.messages[i].createdAt <= db.now)
    && (forall i, j :: 0 <= i < j < |db.messages| ==>
          db.messages[i].id < db.messages[j].id && db.messages[i].createdAt <= db.messages[j].createdAt)
  }

  /** A member's counter is the number of the other's messages since the member's last reset. */
  ghost predicate UnreadInv(st: State) {
    && (forall chat, user :: (chat, user) in st.resets ==> (chat, user) in st.db.members)
    && (forall chat, user :: (chat, user) in st.db.members ==> CounterInv(st, chat, user))
  }

  ghost predicate CounterInv(st: State, chat: int, user: int) {
    && (chat, user) in st.db.members
    && st.ResetAt(chat, user) <= |st.db.messages|
    && st.db.members[(chat, user)] == Unseen(st.db.messages[st.ResetAt(chat, user)..], chat, user)
  }

  ghost predicate StateInv(st: State) {
    ChatsInv(st) && MembersInv(st.db) && MessagesInv(st.db) && UnreadInv(st)
  }

  /** Chat `id` is the chat of the two users of a request, whichever of them asked. */
  predicate ChatFor(st: State, req: Request, id: int) {
    && req.CreateReq? && id in st.db.chats
    && IsPair(st.db.chats[id], Low(req.initiator, req.recipient), High(req.initiator, req.recipient))
  }

  ghost predicate CallInv(st: State, c: int, call: Call) {
    match call.pc
    case CreateMembers(id, at) =>
      && ChatFor(st, call.req, id) && st.db.chats[id].createdAt == at
      && st.OpenedBy(id, c) && Memberless(st.db, id)
    case CreateInsert => call.req.CreateReq?
    case SendInsert => call.req.SendReq? && (call.req.chat, call.req.sender) in st.db.members
    case SendParticipants(id, at) =>
      && call.req.SendReq? && (call.req.chat, call.req.sender) in st.db.members
      && Message(id, call.req.chat, call.req.sender, call.req.text, at) in st.db.messages
    case ReadQuery => call.req.ReadReq? && (call.req.chat, call.req.caller) in st.db.members
    case ReadReset => call.req.ReadReq? && (call.req.chat, call.req.caller) in st.db.members
    case Done(o) => OutcomeInv(st, c, call.req, o)
    case _ => true
  }

  ghost predicate Memberless(db: Db, id: int) {
    forall user :: (id, user) !in db.members
  }

  ghost predicate OutcomeInv(st: State, c: int, req: Request, o: Outcome) {
    match o
    case Opened(id, created, at) =>
      && ChatFor(st, req, id) && st.db.chats[id].createdAt == at
      && (created <==> st.OpenedBy(id, c))
      && (created ==> (id, st.db.chats[id].user1) in st.db.members)
    case Sent(id, at, user1, user2) =>
      && req.SendReq? && (req.chat, req.sender) in st.db.members
      && req.chat in st.db.chats && IsPair(st.db.chats[req.chat], user1, user2)
      && (req.sender == user1 || req.sender == user2)
      && Message(id, req.chat, req.sender, req.text, at) in st.db.messages
    case HasRead => req.ReadReq? && (req.chat, req.caller) in st.db.members
    case Failed(e) => req.SendReq? ==> e != NotFound
  }

  /** A call has opened at most one chat, and while it runs only the one it is about to fill. */
  ghost predicate OpenerInv(st: State, c: int, pc: Pc) {
    && (forall i, j :: i in st.opener && j in st.opener && st.opener[i] == c && st.opener[j] == c ==> i == j)
    && (!pc.Done? ==> forall id :: id in st.opener && st.opener[id] == c ==> pc.CreateMembers? && pc.id == id)
  }

  ghost predicate Inv(w: World) {
    && StateInv(w.st)
    && (forall c :: c in w.calls ==> OpenerInv(w.st, c, w.calls[c].pc))
    && (forall id :: id in w.st.opener ==> w.st.opener[id] in w.calls)
    && (forall c :: c in w.calls ==> CallInv(w.st, c, w.calls[c]))
  }

  lemma ElapseKeeps(st: State, dt: nat)
    requires StateInv(st)
    ensures StateInv(Elapse(st, dt))
  {
    assert forall chat, user :: (chat, user) in st.db.members ==> CounterInv(st, chat, user);
  }

  lemma NewChatKeeps(st: State, c: int, id: int, a: int, b: int)
    requires StateInv(st) && a < b && id >= st.db.nextChat
    requires forall i :: i in st.db.chats ==> !IsPair(st.db.chats[i], a, b)
    ensures StateInv(Apply(st, c, NewChat(id, a, b))) && Memberless(st.db, id)
  {
    var st' := Apply(st, c, NewChat(id, a, b));
    ChatInserted(st, c, id, a, b);
    SameCounters(st, st');
    MessagesKept(st.db, st'.db);
  }

  lemma ChatInserted(st: State, c: int, id: int, a: int, b: int)
    requires ChatsInv(st) && MembersInv(st.db) && a < b && id >= st.db.nextChat
    requires forall i :: i in st.db.chats ==> !IsPair(st.db.chats[i], a, b)
    ensures ChatsInv(Apply(st, c, NewChat(id, a, b))) && MembersInv(InsertChat(st.db, id, a, b)) && Memberless(st.db, id)
  {
  }

  lemma MessagesKept(db: Db, db': Db)
    requires MessagesInv(db) && db'.messages == db.messages && db'.nextMessage == db.nextMessage && db'.now == db.now
    requires forall chat, user :: (chat, user) in db.members ==> (chat, user) in db'.members
    ensures MessagesInv(db')
  {
  }

  lemma SameCounters(st: State, st': State)
    requires UnreadInv(st)
    requires st'.db.members == st.db.members && st'.db.messages == st.db.messages && st'.resets == st.resets
    ensures UnreadInv(st')
  {
    forall chat, user | (chat, user) in st'.db.members
      ensures CounterInv(st', chat, user)
    {
      assert CounterInv(st, chat, user);
    }
  }

  lemma NewMembersKeeps(st: State, c: int, id: int, a: int, b: int)
    requires StateInv(st) && id in st.db.chats && IsPair(st.db.chats[id], a, b) && Memberless(st.db, id)
    ensures StateInv(Apply(st, c, NewMembers(id, a, b)))
  {
    var st' := Apply(st, c, NewMembers(id, a, b));
    assert MembersInv(st'.db);
    MembersCounted(st, c, id, a, b);
    assert MessagesInv(st'.db);
  }

  lemma MembersCounted(st: State, c: int, id: int, a: int, b: int)
    requires UnreadInv(st) && MessagesInv(st.db) && Memberless(st.db, id)
    ensures UnreadInv(Apply(st, c, NewMembers(id, a, b)))
  {
    var st' := Apply(st, c, NewMembers(id, a, b));
    UnseenNone(st.db.messages, id, a);
    UnseenNone(st.db.messages, id, b);
    forall chat, user | (chat, user) in st'.db.members
      ensures CounterInv(st', chat, user)
    {
      if chat == id {
        assert (chat, user) !in st.resets;
        assert st.db.messages[0..] == st.db.messages;
      } else {
        assert CounterInv(st, chat, user);
      }
    }
  }

  lemma NewMessageKeeps(st: State, c: int, id: int, chat: int, sender: int, text: string)
    requires StateInv(st) && id >= st.db.nextMessage && (chat, sender) in st.db.members
    ensures StateInv(Apply(st, c, NewMessage(id, chat, sender, text)))
  {
    var st' := Apply(st, c, NewMessage(id, chat, sender, text));
    MessageCounted(st, c, id, chat, sender, text);
    MessageAppended(st.db, id, chat, sender, text);
  }

  lemma MessageAppended(db: Db, id: int, chat: int, sender: int, text: string)
    requires MessagesInv(db) && MembersInv(db) && id >= db.nextMessage && (chat, sender) in db.members
    ensures var db' := InsertMessage(db, id, chat, sender, text); MessagesInv(db') && MembersInv(db')
  {
  }

  lemma MessageCounted(st: State, c: int, id: int, chat: int, sender: int, text: string)
    requires UnreadInv(st)
    ensures UnreadInv(Apply(st, c, NewMessage(id, chat, sender, text)))
  {
    var st' := Apply(st, c, NewMessage(id, chat, sender, text));
    var m := Message(id, chat, sender, text, st.db.now);
    forall k, user | (k, user) in st'.db.members
      ensures CounterInv(st', k, user)
    {
      assert CounterInv(st, k, user);
      var r := st.ResetAt(k, user);
      assert st'.db.messages[r..] == st.db.messages[r..] + [m];
      UnseenMore(st.db.messages[r..], m, k, user);
    }
  }

  lemma ResetKeeps(st: State, c: int, chat: int, user: int)
    requires StateInv(st) && (chat, user) in st.db.members
    ensures StateInv(Apply(st, c, Reset(chat, user)))
  {
    ResetCounted(st, c, chat, user);
    ResetMembers(st.db, chat, user);
  }

  lemma ResetMembers(db: Db, chat: int, user: int)
    requires MembersInv(db) && MessagesInv(db) && (chat, user) in db.members
    ensures MembersInv(ResetUnread(db, chat, user)) && MessagesInv(ResetUnread(db, chat, user))
  {
    var db' := ResetUnread(db, chat, user);
    assert forall k, u :: (k, u) in db'.members <==> (k, u) in db.members;
    MessagesKept(db, db');
  }

  lemma ResetCounted(st: State, c: int, chat: int, user: int)
    requires UnreadInv(st) && (chat, user) in st.db.members
    ensures UnreadInv(Apply(st, c, Reset(chat, user)))
  {
    var st' := Apply(st, c, Reset(chat, user));
    forall k, u | (k, u) in st'.db.members
      ensures CounterInv(st', k, u)
    {
      assert CounterInv(st, k, u);
    }
  }

  /** `s'` is `s` after a statement of call `c`. */
  ghost predicate Later(s: State, s': State, c: int) {
    && (forall id :: id in s.db.chats ==> id in s'.db.chats && s'.db.chats[id] == s.db.chats[id])
    && (forall id :: id in s.opener ==> s'.OpenedBy(id, s.opener[id]))
    && (forall id :: id in s'.opener ==> id in s.opener || s'.opener[id] == c)
    && (forall chat, user :: (chat, user) in s.db.members ==> (chat, user) in s'.db.members)
    && (forall chat, user :: (chat, user) in s'.db.members && (chat, user) !in s.db.members ==> s.OpenedBy(chat, c))
    && s.db.messages <= s'.db.messages
    && s.db.now <= s'.db.now
  }

  lemma OthersStable(s: State, s': State, c: int, d: int, call: Call)
    requires Later(s, s', c) && d != c && CallInv(s, d, call)
    ensures CallInv(s', d, call)
  {
    assert forall m :: m in s.db.messages ==> m in s'.db.messages;
  }

  /** What each statement may take for granted when it runs. */
  ghost predicate Enabled(st: State, effect: Effect) {
    match effect
    case Nothing => true
    case NewChat(id, a, b) =>
      a < b && id >= st.db.nextChat && forall i :: i in st.db.chats ==> !IsPair(st.db.chats[i], a, b)
    case NewMembers(id, a, b) => id in st.db.chats && IsPair(st.db.chats[id], a, b) && Memberless(st.db, id)
    case NewMessage(id, chat, sender, text) => id >= st.db.nextMessage && (chat, sender) in st.db.members
    case Reset(chat, user) => (chat, user) in st.db.members
  }

  lemma EffectKeeps(st: State, c: int, effect: Effect)
    requires StateInv(st) && Enabled(st, effect)
    ensures StateInv(Apply(st, c, effect))
  {
    match effect
    case Nothing =>
    case NewChat(id, a, b) => NewChatKeeps(st, c, id, a, b);
    case NewMembers(id, a, b) => NewMembersKeeps(st, c, id, a, b);
    case NewMessage(id, chat, sender, text) => NewMessageKeeps(st, c, id, chat, sender, text);
    case Reset(chat, user) => ResetKeeps(st, c, chat, user);
  }

  lemma DecideEnabled(st: State, c: int, call: Call, ch: Choice)
    requires CallInv(st, c, call) && !call.pc.Done?
    ensures Enabled(st, Decide(st, call, ch).effect)
  {
  }

  /** Only the call that inserted a chat inserts its members. */
  ghost predicate Owned(st: State, c: int, effect: Effect) {
    && (effect.NewChat? ==> effect.id !in st.db.chats && effect.id !in st.opener)
    && (effect.NewMembers? ==> st.OpenedBy(effect.id, c))
  }

  lemma DecideOwned(st: State, c: int, call: Call, ch: Choice)
    requires ChatsInv(st) && CallInv(st, c, call) && !call.pc.Done?
    ensures Owned(st, c, Decide(st, call, ch).effect)
  {
  }

  lemma OpenerMoves(st: State, c: int, call: Call, ch: Choice)
    requires OpenerInv(st, c, call.pc) && CallInv(st, c, call) && !call.pc.Done?
    ensures var m := Decide(st, call, ch); OpenerInv(Apply(st, c, m.effect), c, m.pc)
  {
  }

  lemma OthersOpened(st: State, st': State, c: int, d: int, pc: Pc)
    requires Later(st, st', c) && d != c && OpenerInv(st, d, pc)
    ensures OpenerInv(st', d, pc)
  {
  }

  lemma EffectLater(st: State, c: int, effect: Effect)
    requires Owned(st, c, effect)
    ensures Later(st, Apply(st, c, effect), c)
  {
  }

  lemma CreateKeepsCall(st: State, c: int, call: Call, ch: Choice)
    requires ChatsInv(st) && CallInv(st, c, call) && call.req.CreateReq? && !call.pc.Done?
    requires OpenerInv(st, c, call.pc)
    requires forall chat, user :: (chat, user) in st.db.members ==> chat in st.db.chats
    ensures var m := Decide(st, call, ch); CallInv(Apply(st, c, m.effect), c, call.(pc := m.pc))
  {
  }

  lemma SendKeepsCall(st: State, c: int, call: Call, ch: Choice)
    requires ChatsInv(st) && MembersInv(st.db) && CallInv(st, c, call) && call.req.SendReq? && !call.pc.Done?
    ensures var m := Decide(st, call, ch); CallInv(Apply(st, c, m.effect), c, call.(pc := m.pc))
  {
    if call.pc.SendInsert? {
      var chat, sender := call.req.chat, call.req.sender;
      CheckedSendCountsOne(st.db, chat, sender);
      var id := st.db.nextMessage + ch.gap;
      var ms := InsertMessage(st.db, id, chat, sender, call.req.text).messages;
      assert ms[|ms| - 1] == Message(id, chat, sender, call.req.text, st.db.now);
    }
  }

  /** A send by a member updates exactly one counter, the other user's: it always has a row to return. */
  lemma CheckedSendCountsOne(db: Db, chat: int, sender: int)
    requires MembersInv(db) && (chat, sender) in db.members
    requires forall id :: id in db.chats ==> db.chats[id].user1 < db.chats[id].user2
    ensures var c := db.chats[chat];
            Notified(db, chat, sender) == {(chat, if sender == c.user1 then c.user2 else c.user1)}
  {
    var c := db.chats[chat];
    var other := if sender == c.user1 then c.user2 else c.user1;
    assert (chat, other) in db.members;
    forall k | k in Notified(db, chat, sender)
      ensures k == (chat, other)
    {
      assert (k.0, k.1) in db.members;
    }
    assert (chat, other) in Notified(db, chat, sender);
  }

  lemma ReadKeepsCall(st: State, c: int, call: Call, ch: Choice)
    requires CallInv(st, c, call) && call.req.ReadReq? && !call.pc.Done?
    ensures var m := Decide(st, call, ch); CallInv(Apply(st, c, m.effect), c, call.(pc := m.pc))
  {
  }

  lemma StepKeeps(w: World, s: Step)
    requires Inv(w)
    ensures Inv(Next(w, s))
  {
    match s
    case Start(c, req) => StartKeeps(w, c, req);
    case Go(c, ch) => if c in w.calls && !w.calls[c].pc.Done? { GoKeeps(w, c, ch); }
  }

  lemma StartKeeps(w: World, c: int, req: Request)
    requires Inv(w)
    ensures Inv(Next(w, Start(c, req)))
  {
    if c !in w.calls {
      var w' := Next(w, Start(c, req));
      assert CallInv(w.st, c, w'.calls[c]);
      NothingOpened(w.st, c, Entrypoint(req));
      forall d | d in w'.calls
        ensures CallInv(w'.st, d, w'.calls[d]) && OpenerInv(w'.st, d, w'.calls[d].pc)
      {
        assert d != c ==> w'.calls[d] == w.calls[d];
      }
    }
  }

  lemma NothingOpened(st: State, c: int, pc: Pc)
    requires forall id :: id in st.opener ==> st.opener[id] != c
    ensures OpenerInv(st, c, pc)
  {
  }

  lemma ElapseStable(st: State, dt: nat, c: int, call: Call)
    requires CallInv(st, c, call)
    ensures CallInv(Elapse(st, dt), c, call)
  {
  }

  lemma CallMoves(st: State, c: int, call: Call, ch: Choice)
    requires StateInv(st) && CallInv(st, c, call) && OpenerInv(st, c, call.pc) && !call.pc.Done?
    ensures var m := Decide(st, call, ch);
            var st' := Apply(st, c, m.effect);
            StateInv(st') && Later(st, st', c) && CallInv(st', c, call.(pc := m.pc))
  {
    var m := Decide(st, call, ch);
    DecideEnabled(st, c, call, ch);
    EffectKeeps(st, c, m.effect);
    DecideOwned(st, c, call, ch);
    EffectLater(st, c, m.effect);
    match call.req
    case CreateReq(_, _) => CreateKeepsCall(st, c, call, ch);
    case SendReq(_, _, _) => SendKeepsCall(st, c, call, ch);
    case ReadReq(_, _) => ReadKeepsCall(st, c, call, ch);
  }

  lemma GoKeeps(w: World, c: int, ch: Choice)
    requires Inv(w) && c in w.calls && !w.calls[c].pc.Done?
    ensures Inv(Next(w, Go(c, ch)))
  {
    var st := Elapse(w.st, ch.dt);
    ElapseKeeps(w.st, ch.dt);
    ElapseStable(w.st, ch.dt, c, w.calls[c]);
    assert OpenerInv(st, c, w.calls[c].pc);
    CallMoves(st, c, w.calls[c], ch);
    OpenerMoves(st, c, w.calls[c], ch);
    var w' := Next(w, Go(c, ch));
    forall d | d in w'.calls
      ensures CallInv(w'.st, d, w'.calls[d]) && OpenerInv(w'.st, d, w'.calls[d].pc)
    {
      if d != c { OtherStays(w, w'.st, c, ch.dt, d); }
    }
  }

  lemma OtherStays(w: World, st': State, c: int, dt: nat, d: int)
    requires d in w.calls && d != c && Later(Elapse(w.st, dt), st', c)
    requires CallInv(w.st, d, w.calls[d]) && OpenerInv(w.st, d, w.calls[d].pc)
    ensures CallInv(st', d, w.calls[d]) && OpenerInv(st', d, w.calls[d].pc)
  {
    ElapseStable(w.st, dt, d, w.calls[d]);
    OthersStable(Elapse(w.st, dt), st', c, d, w.calls[d]);
    OthersOpened(Elapse(w.st, dt), st', c, d, w.calls[d].pc);
  }

  lemma {:induction false} RunKeeps(w: World, steps: seq<Step>)
    requires Inv(w)
    ensures Inv(Run(w, steps))
  {
    if steps != [] {
      var before := steps[..|steps| - 1];
      RunKeeps(w, before);
      RunLast(w, steps);
      StepKeeps(Run(w, before), steps[|steps| - 1]);
    }
  }

  lemma ReachableInv(w: World)
    requires Reachable(w)
    ensures Inv(w)
  {
    var steps :| w == Run(Init(), steps);
    RunKeeps(Init(), steps);
  }

  function Users(req: Request): set<int>
    requires req.CreateReq?
  {
    {req.initiator, req.recipient}
  }

  /** In every interleaving, whatever fails: two calls for the same two users, in either order, get the
      same chat; different pairs get different chats; and only one call ever reports a creation. */
  lemma OneChatPerPair(steps: seq<Step>, c: int, d: int)
    ensures var w := Run(Init(), steps);
            c in w.calls && d in w.calls && w.calls[c].pc.Done? && w.calls[d].pc.Done?
            && w.calls[c].pc.outcome.Opened? && w.calls[d].pc.outcome.Opened? ==>
              var x, y := w.calls[c].pc.outcome, w.calls[d].pc.outcome;
              && w.calls[c].req.CreateReq? && w.calls[d].req.CreateReq?
              && (x.id == y.id <==> Users(w.calls[c].req) == Users(w.calls[d].req))
              && (x.id == y.id ==> x.at == y.at)
              && (x.id == y.id && x.created && y.created ==> c == d)
  {
    RunKeeps(Init(), steps);
    var w := Run(Init(), steps);
    if c in w.calls && d in w.calls && w.calls[c].pc.Done? && w.calls[d].pc.Done?
       && w.calls[c].pc.outcome.Opened? && w.calls[d].pc.outcome.Opened? {
      assert CallInv(w.st, c, w.calls[c]) && CallInv(w.st, d, w.calls[d]);
      PairsAgree(w.calls[c].req, w.calls[d].req);
    }
  }

  /** A call reports a creation exactly if it inserted the chat, and then the chat has its members; what
      it reports is the chat's row. */
  lemma CreationsAreReported(steps: seq<Step>, c: int)
    ensures var w := Run(Init(), steps);
            c in w.calls && w.calls[c].pc.Done? && w.calls[c].pc.outcome.Opened? ==>
              var o := w.calls[c].pc.outcome;
              && o.id in w.st.db.chats && w.st.db.chats[o.id].createdAt == o.at
              && (o.created <==> w.st.OpenedBy(o.id, c))
              && (o.created ==>
                    && (o.id, w.st.db.chats[o.id].user1) in w.st.db.members
                    && (o.id, w.st.db.chats[o.id].user2) in w.st.db.members)
  {
    RunKeeps(Init(), steps);
    if c in Run(Init(), steps).calls { OpenedIs(Run(Init(), steps), c); }
  }

  lemma OpenedIs(w: World, c: int)
    requires Inv(w) && c in w.calls
    ensures w.calls[c].pc.Done? && w.calls[c].pc.outcome.Opened? ==>
              var o := w.calls[c].pc.outcome;
              && o.id in w.st.db.chats && w.st.db.chats[o.id].createdAt == o.at
              && (o.created <==> w.st.OpenedBy(o.id, c))
              && (o.created ==>
                    && (o.id, w.st.db.chats[o.id].user1) in w.st.db.members
                    && (o.id, w.st.db.chats[o.id].user2) in w.st.db.members)
  {
    assert CallInv(w.st, c, w.calls[c]) && MembersInv(w.st.db);
  }

  lemma PairsAgree(r: Request, s: Request)
    requires r.CreateReq? && s.CreateReq?
    ensures Low(r.initiator, r.recipient) == Low(s.initiator, s.recipient)
            && High(r.initiator, r.recipient) == High(s.initiator, s.recipient)
        <==> Users(r) == Users(s)
  {
    var a, b := Users(r), Users(s);
    if a == b {
      assert r.initiator in b && r.recipient in b && s.initiator in a && s.recipient in a;
    }
  }

  /** The tables' own rules: a chat joins two different users, and has no members or just those two. */
  lemma ChatsAreWellFormed(steps: seq<Step>, id: int)
    ensures var db := Run(Init(), steps).st.db;
            id in db.chats ==>
              var chat := db.chats[id];
              && chat.user1 < chat.user2
              && ((forall user :: (id, user) !in db.members)
                  || (forall user :: (id, user) in db.members <==> user == chat.user1 || user == chat.user2))
  {
    RunKeeps(Init(), steps);
  }

  /** A send that a member is allowed to make counts up the other user's counter and no other, and
      reports the message it stored; it never ends in "no rows". */
  lemma SendsReportTheirMessage(steps: seq<Step>, c: int)
    ensures var w := Run(Init(), steps);
            c in w.calls && w.calls[c].req.SendReq? ==>
              var req, pc := w.calls[c].req, w.calls[c].pc;
              && (pc.SendInsert? ==>
                    exists other :: other != req.sender && Notified(w.st.db, req.chat, req.sender) == {(req.chat, other)})
              && pc != Done(Failed(NotFound))
              && (pc.Done? && pc.outcome.Sent? ==>
                    && Message(pc.outcome.id, req.chat, req.sender, req.text, pc.outcome.at) in w.st.db.messages
                    && req.sender in {pc.outcome.user1, pc.outcome.user2}
                    && req.chat in w.st.db.chats && IsPair(w.st.db.chats[req.chat], pc.outcome.user1, pc.outcome.user2)
                    && forall m :: m in w.st.db.messages && m.id == pc.outcome.id ==>
                         m == Message(pc.outcome.id, req.chat, req.sender, req.text, pc.outcome.at))
  {
    RunKeeps(Init(), steps);
    var w := Run(Init(), steps);
    if c in w.calls && w.calls[c].req.SendReq? {
      assert CallInv(w.st, c, w.calls[c]);
      if w.calls[c].pc.SendInsert? { CheckedSendCountsOne(w.st.db, w.calls[c].req.chat, w.calls[c].req.sender); }
    }
  }

  /** In every interleaving, an unread counter is the number of the other user's messages stored since
      the user's last reset. */
  lemma UnreadCountsAreExact(steps: seq<Step>, chat: int, user: int)
    ensures var st := Run(Init(), steps).st;
            (chat, user) in st.db.members ==>
              && st.ResetAt(chat, user) <= |st.db.messages|
              && st.db.members[(chat, user)] == Unseen(st.db.messages[st.ResetAt(chat, user)..], chat, user)
  {
    RunKeeps(Init(), steps);
    var st := Run(Init(), steps).st;
    assert (chat, user) in st.db.members ==> CounterInv(st, chat, user);
  }

  // ---- Chats whose second insertion never came ----

  /** Chat `id` has no members, and call `c`, which inserted it, has ended. */
  ghost predicate Stranded(w: World, id: int, c: int) {
    w.st.OpenedBy(id, c) && Memberless(w.st.db, id) && c in w.calls && w.calls[c].pc.Done?
  }

  lemma GoLater(w: World, c: int, ch: Choice)
    requires Inv(w) && c in w.calls && !w.calls[c].pc.Done?
    ensures Later(Elapse(w.st, ch.dt), Next(w, Go(c, ch)).st, c)
  {
    ElapseKeeps(w.st, ch.dt);
    ElapseStable(w.st, ch.dt, c, w.calls[c]);
    CallMoves(Elapse(w.st, ch.dt), c, w.calls[c], ch);
  }

  lemma StaysMemberless(s: State, s': State, d: int, id: int, c: int)
    requires Later(s, s', d) && c != d && s.OpenedBy(id, c) && Memberless(s.db, id)
    ensures s'.OpenedBy(id, c) && Memberless(s'.db, id)
  {
  }

  lemma StrandedStep(w: World, s: Step, id: int, c: int)
    requires Inv(w) && Stranded(w, id, c)
    ensures Stranded(Next(w, s), id, c)
  {
    if s.Go? && s.c in w.calls && !w.calls[s.c].pc.Done? {
      GoLater(w, s.c, s.choice);
      StaysMemberless(Elapse(w.st, s.choice.dt), Next(w, s).st, s.c, id, c);
    }
  }

  lemma {:induction false} StrandedForever(w: World, more: seq<Step>, id: int, c: int)
    requires Inv(w) && Stranded(w, id, c)
    ensures Stranded(Run(w, more), id, c)
  {
    if more != [] {
      var before := more[..|more| - 1];
      StrandedForever(w, before, id, c);
      RunKeeps(w, before);
      RunLast(w, more);
      StrandedStep(Run(w, before), more[|more| - 1], id, c);
    }
  }

  ghost predicate EverFilled(w: World, id: int) {
    exists more :: !Memberless(Run(w, more).st.db, id)
  }

  /** A chat without members can still get them exactly while the call that inserted it is running: once
      that call has failed between its two insertions, no later call, not even another creation for the
      same pair, makes the chat usable. */
  lemma StrandedIffOpenerEnded(steps: seq<Step>, id: int)
    ensures var w := Run(Init(), steps);
            id in w.st.db.chats && Memberless(w.st.db, id) ==>
              id in w.st.opener && w.st.opener[id] in w.calls
              && (EverFilled(w, id) <==> !w.calls[w.st.opener[id]].pc.Done?)
  {
    RunKeeps(Init(), steps);
    var w := Run(Init(), steps);
    if id in w.st.db.chats && Memberless(w.st.db, id) {
      assert id in w.st.opener;
      var c := w.st.opener[id];
      if w.calls[c].pc.Done? {
        if more :| !Memberless(Run(w, more).st.db, id) { StrandedForever(w, more, id, c); }
      } else {
        FillsNow(w, id);
      }
    }
  }

  lemma FillsNow(w: World, id: int)
    requires Inv(w) && id in w.st.db.chats && id in w.st.opener && Memberless(w.st.db, id)
    requires !w.calls[w.st.opener[id]].pc.Done?
    ensures EverFilled(w, id)
  {
    var c := w.st.opener[id];
    assert CallInv(w.st, c, w.calls[c]) && OpenerInv(w.st, c, w.calls[c].pc);
    var a := w.st.db.chats[id].user1;
    var s := Go(c, Choice(0, Fine, 0));
    assert Run(w, [s]) == Next(w, s) by {
      assert [s][..0] == [];
      assert Run(w, []) == w;
    }
    assert (id, a) in Next(w, s).st.db.members;
  }

  /** Until then nobody reads or writes in it: every call on the chat is at its check, or has failed. */
  lemma MemberlessChatsAreUnusable(steps: seq<Step>, id: int, c: int)
    ensures var w := Run(Init(), steps);
            Memberless(w.st.db, id) && c in w.calls
            && !w.calls[c].req.CreateReq? && w.calls[c].req.chat == id ==>
              w.calls[c].pc in {SendCheck, ReadCheck} || (w.calls[c].pc.Done? && w.calls[c].pc.outcome.Failed?)
  {
    RunKeeps(Init(), steps);
    var w := Run(Init(), steps);
    if c in w.calls { assert CallInv(w.st, c, w.calls[c]); }
  }

  // ---- The history only grows at its new end ----

  lemma {:induction false} MessagesGrow(steps: seq<Step>, i: nat)
    requires i <= |steps|
    ensures Run(Init(), steps[..i]).st.db.messages <= Run(Init(), steps).st.db.messages
  {
    if i == |steps| {
      assert steps[..i] == steps;
    } else {
      var before := steps[..|steps| - 1];
      MessagesGrow(before, i);
      assert before[..i] == steps[..i];
      RunLast(Init(), steps);
      StepAppends(Run(Init(), before), steps[|steps| - 1]);
    }
  }

  lemma StepAppends(w: World, s: Step)
    ensures w.st.db.messages <= Next(w, s).st.db.messages
  {
  }
}
