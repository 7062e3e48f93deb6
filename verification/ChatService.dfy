/** The chat service and its two repositories, each statement proved to carry out the machine's step. */
module ChatService {
  import opened Common
  import opened StreamLists
  import opened StreamHub
  import opened ChatTables
  import opened ChatMachine
  import opened ChatCalls
  import opened ChatOutcomes
  import opened Feed
  import opened History

  /** The tables, and the machine's world they belong to. */
  class Database {
    var db: Db
    ghost var world: World

    ghost predicate Valid()
      reads this
    {
      db == world.st.db && Reachable(world)
    }

    /** Call `c` is waiting for its next access. */
    ghost predicate At(c: int, call: Call)
      reads this
    {
      Valid() && c in world.calls && world.calls[c] == call
    }

    constructor ()
      ensures Valid() && world == Init()
    {
      db := Db(0, map[], map[], [], 1, 1);
      world := Init();
      new;
      assert world == Run(Init(), []);
    }

    ghost method Start(c: int, req: Request)
      requires Valid() && c !in world.calls
      modifies this`world
      ensures world == Begin(old(world), c, req) && At(c, Call(req, Entrypoint(req)))
    {
      ReachableNext(world, Step.Start(c, req));
      world := Begin(world, c, req);
    }

    /** Leave the tables as the access of `c` leaves them. */
    method Commit(ghost c: int, ghost call: Call, ch: Choice, after: Db)
      requires At(c, call) && !call.pc.Done?
      requires after == Apply(Elapse(world.st, ch.dt), c, Decide(Elapse(world.st, ch.dt), call, ch).effect).db
      modifies this
      ensures world == Advance(old(world), c, ch) && db == after
      ensures At(c, call.(pc := Decide(Elapse(old(world.st), ch.dt), call, ch).pc))
    {
      ReachableNext(world, Go(c, ch));
      world := Advance(world, c, ch);
      db := after;
    }
  }

  /** The program counter after a statement that reported `r`. */
  function Then<T>(r: Result<T>, next: Pc): Pc {
    if r.Err? then Done(Failed(r.error)) else next
  }

  function ChatOutcome(r: Result<(int, bool, int)>): Outcome {
    match r
    case Ok((id, created, at)) => Opened(id, created, at)
    case Err(e) => Failed(e)
  }

  /** Find the row of a pair, as the unique index does. */
  method Lookup(chats: map<int, Chat>, a: int, b: int) returns (r: Option<int>)
    ensures match r
            case None => forall id :: id in chats ==> !IsPair(chats[id], a, b)
            case Some(id) => id in chats && IsPair(chats[id], a, b)
  {
    var rows := chats.Items;
    while rows != {}
      invariant rows <= chats.Items
      invariant forall id :: id in chats && (id, chats[id]) !in rows ==> !IsPair(chats[id], a, b)
      decreases |rows|
    {
      var row :| row in rows;
      if IsPair(row.1, a, b) {
        return Some(row.0);
      }
      rows := rows - {row};
    }
    return None;
  }

  class ChatRepository {
    const database: Database

    constructor (database: Database)
      ensures this.database == database
    {
      this.database := database;
    }

    method InsertOrFind(ghost c: int, ghost call: Call, a: int, b: int, ch: Choice)
      returns (r: Result<(int, bool, int)>)
      requires call.req.CreateReq? && a == Low(call.req.initiator, call.req.recipient)
      requires b == High(call.req.initiator, call.req.recipient) && call.pc == CreateInsert
      requires database.At(c, call)
      modifies database
      ensures database.world == Advance(old(database.world), c, ch)
      ensures database.At(c, call.(pc := match r
                                         case Err(e) => Done(Failed(e))
                                         case Ok((id, created, at)) =>
                                           if created then CreateMembers(id, at) else Done(Opened(id, false, at))))
    {
      var db := Elapsed(database.db, ch.dt);
      if a >= b {
        database.Commit(c, call, ch, db);
        return Err(if ch.fault == Fine then ConstraintViolation else Unavailable);
      }
      var existing := Lookup(db.chats, a, b);
      ExistingIs(database.world, existing, a, b);
      if existing.Some? {
        database.Commit(c, call, ch, db);
        var at := db.chats[existing.value].createdAt;
        return if ch.fault == Fine then Ok((existing.value, false, at)) else Err(Unavailable);
      }
      var id := db.nextChat + ch.gap;
      database.Commit(c, call, ch, if ch.fault == Lost then db else InsertChat(db, id, a, b));
      return if ch.fault == Fine then Ok((id, true, db.now)) else Err(Unavailable);
    }

    method AddMembers(ghost c: int, ghost call: Call, id: int, a: int, b: int, ch: Choice) returns (r: Result<()>)
      requires call.req.CreateReq? && a == Low(call.req.initiator, call.req.recipient)
      requires b == High(call.req.initiator, call.req.recipient) && call.pc.CreateMembers? && call.pc.id == id
      requires database.At(c, call)
      modifies database
      ensures database.world == Advance(old(database.world), c, ch)
      ensures database.At(c, call.(pc := Then(r, Done(Opened(id, true, call.pc.at)))))
    {
      var db := Elapsed(database.db, ch.dt);
      MembersFit(database.world, c, call);
      database.Commit(c, call, ch, if ch.fault == Lost then db else InsertMembers(db, id, a, b));
      return if ch.fault == Fine then Ok(()) else Err(Unavailable);
    }

    method GetOrCreateChat(ghost c: int, initiator: int, recipient: int, env: Env)
      returns (r: Result<(int, bool, int)>)
      requires database.Valid() && c !in database.world.calls
      modifies database
      ensures database.Valid()
      ensures database.world == Completed(old(database.world), c, CreateReq(initiator, recipient), env)
      ensures database.world.calls[c].pc == Done(ChatOutcome(r))
      ensures r.Ok? <==> initiator != recipient && env(0).fault == Fine
                         && (env(1).fault == Fine
                             || exists id :: id in old(database.db).chats
                                             && {old(database.db).chats[id].user1, old(database.db).chats[id].user2}
                                                == {initiator, recipient})
      ensures r.Ok? ==>
                var (id, created, at) := r.value;
                var before, after := old(database.db).chats, database.db.chats;
                && id in after && {after[id].user1, after[id].user2} == {initiator, recipient} && after[id].createdAt == at
                && (created <==> forall i :: i in before ==> {before[i].user1, before[i].user2} != {initiator, recipient})
                && (if created then id !in before else after == before)
      ensures r.Err? ==> r.error == (if initiator == recipient && env(0).fault == Fine then ConstraintViolation
                                     else Unavailable)
      ensures initiator == recipient ==>
                database.db.chats == old(database.db).chats && database.db.members == old(database.db).members
    {
      ghost var call := Call(CreateReq(initiator, recipient), CreateInsert);
      database.Start(c, call.req);
      var user1, user2 := initiator, recipient;
      if user1 > user2 {
        user1, user2 := user2, user1;
      }
      r := InsertOrFind(c, call, user1, user2, env(0));
      if r.Ok? && r.value.1 {
        var added := AddMembers(c, call.(pc := CreateMembers(r.value.0, r.value.2)), r.value.0, user1, user2, env(1));
        if added.Err? {
          r := Err(added.error);
        }
      } else {
        EndedStays(database.world, c, env(1));
      }
      EndedStays(database.world, c, env(2));
      CreationSucceedsIff(old(database.world), c, initiator, recipient, env);
      if initiator == recipient {
        SelfChatIsRefused(old(database.world), c, initiator, env);
      }
    }

    method IsMember(ghost c: int, ghost call: Call, chat: int, user: int, ch: Choice) returns (r: Result<bool>)
      requires (call.pc == SendCheck && call.req.SendReq? && call.req.sender == user && call.req.chat == chat)
            || (call.pc == ReadCheck && call.req == ReadReq(chat, user))
      requires database.At(c, call)
      modifies database
      ensures database.world == Advance(old(database.world), c, ch)
      ensures database.db == Elapsed(old(database.db), ch.dt)
      ensures r == if ch.fault != Fine then Err(Unavailable) else Ok((chat, user) in old(database.db).members)
      ensures database.At(c, call.(pc := Then(r, if r == Ok(true) then (if call.pc.SendCheck? then SendInsert else ReadQuery)
                                                 else Done(Failed(PermissionDenied)))))
    {
      var db := Elapsed(database.db, ch.dt);
      database.Commit(c, call, ch, db);
      return if ch.fault == Fine then Ok((chat, user) in db.members) else Err(Unavailable);
    }

    method ResetUnread(ghost c: int, ghost call: Call, chat: int, user: int, ch: Choice) returns (r: Result<()>)
      requires call == Call(ReadReq(chat, user), ReadReset)
      requires database.At(c, call)
      modifies database
      ensures database.world == Advance(old(database.world), c, ch)
      ensures database.At(c, call.(pc := Then(r, Done(HasRead))))
      ensures r == if ch.fault == Fine then Ok(()) else Err(Unavailable)
      ensures database.db.chats == old(database.db).chats && database.db.messages == old(database.db).messages
      ensures database.db.members == if ch.fault != Lost && (chat, user) in old(database.db).members
                                     then old(database.db).members[(chat, user) := 0] else old(database.db).members
    {
      var db := Elapsed(database.db, ch.dt);
      database.Commit(c, call, ch, if ch.fault == Lost then db else ChatTables.ResetUnread(db, chat, user));
      return if ch.fault == Fine then Ok(()) else Err(Unavailable);
    }

    method GetParticipants(ghost c: int, ghost call: Call, chat: int, ch: Choice) returns (r: Result<(int, int)>)
      requires call.req.SendReq? && call.req.chat == chat && call.pc.SendParticipants?
      requires database.At(c, call)
      modifies database
      ensures database.world == Advance(old(database.world), c, ch)
      ensures database.At(c, call.(pc := match r
                                         case Err(e) => Done(Failed(e))
                                         case Ok((user1, user2)) => Done(Sent(call.pc.id, call.pc.at, user1, user2))))
      ensures database.db == Elapsed(old(database.db), ch.dt)
      ensures r == if ch.fault != Fine then Err(Unavailable)
                   else if chat in old(database.db).chats
                   then Ok((old(database.db).chats[chat].user1, old(database.db).chats[chat].user2)) else Err(NotFound)
    {
      var db := Elapsed(database.db, ch.dt);
      database.Commit(c, call, ch, db);
      if ch.fault != Fine {
        return Err(Unavailable);
      }
      if chat !in db.chats {
        return Err(NotFound);
      }
      return Ok((db.chats[chat].user1, db.chats[chat].user2));
    }
  }

  lemma ExistingIs(w: World, existing: Option<int>, a: int, b: int)
    requires Reachable(w)
    requires match existing
             case None => forall id :: id in w.st.db.chats ==> !IsPair(w.st.db.chats[id], a, b)
             case Some(id) => id in w.st.db.chats && IsPair(w.st.db.chats[id], a, b)
    ensures ChatOf(w.st.db.chats, a, b) == existing
  {
    ReachableInv(w);
    var found := ChatOf(w.st.db.chats, a, b);
    assert existing.Some? ==> SamePair(w.st.db.chats[found.value], w.st.db.chats[existing.value]);
  }

  /** The second insertion never violates a constraint: its chat is still without members. */
  lemma MembersFit(w: World, c: int, call: Call)
    requires Reachable(w) && c in w.calls && w.calls[c] == call && call.pc.CreateMembers?
    ensures call.pc.id in w.st.db.chats && Memberless(w.st.db, call.pc.id)
  {
    ReachableInv(w);
    assert CallInv(w.st, c, call);
  }

  /** A send at its insertion is by a member of a chat that has another one. */
  lemma SenderTargets(w: World, c: int, call: Call)
    requires Reachable(w) && c in w.calls && w.calls[c] == call && call.req.SendReq? && call.pc == SendInsert
    ensures call.req.chat in w.st.db.chats && Notified(w.st.db, call.req.chat, call.req.sender) != {}
  {
    ReachableInv(w);
    assert CallInv(w.st, c, call);
    MemberTargets(w, call.req.chat, call.req.sender);
  }

  class MessageRepository {
    const database: Database

    constructor (database: Database)
      ensures this.database == database
    {
      this.database := database;
    }

    /** The newest messages of a chat, or the newest older than the cursor, row by row. */
    method GetMessages(ghost c: int, ghost call: Call, chat: int, limit: nat, cursor: Option<int>, ch: Choice)
      returns (r: Result<seq<Message>>)
      requires call.req.ReadReq? && call.req.chat == chat && call.pc == ReadQuery
      requires database.At(c, call)
      modifies database
      ensures database.world == Advance(old(database.world), c, ch)
      ensures database.db == Elapsed(old(database.db), ch.dt)
      ensures database.At(c, call.(pc := Then(r, ReadReset)))
      ensures r.Ok? ==> IsAnswer(Older(Rows(old(database.db), chat), cursor), limit, r.value)
      ensures if ch.fault == Fine then r.Ok? && |r.value| <= limit else r == Err(Unavailable)
      ensures r.Ok? ==> forall m :: m in r.value ==>
                m in old(database.db).messages && m.chatId == chat && (cursor.Some? ==> m.createdAt < cursor.value)
      ensures r.Ok? ==> forall m | m in old(database.db).messages && m !in r.value
                                   && m.chatId == chat && (cursor.Some? ==> m.createdAt < cursor.value) ::
                |r.value| == limit && (r.value != [] ==> m.createdAt <= r.value[|r.value| - 1].createdAt)
      ensures r.Ok? ==> forall i, j :: 0 <= i < j < |r.value| ==>
                r.value[i] != r.value[j] && r.value[i].createdAt >= r.value[j].createdAt
    {
      database.Commit(c, call, ch, Elapsed(database.db, ch.dt));
      if ch.fault != Fine {
        return Err(Unavailable);
      }
      var messages := Query(Older(Rows(database.db, chat), cursor), limit);
      AnswerMeans(database.db, chat, cursor, limit, messages);
      return Ok(messages);
    }

    method SendMessage(ghost c: int, ghost call: Call, chat: int, sender: int, text: string, ch: Choice)
      returns (r: Result<(int, int)>)
      requires call == Call(SendReq(chat, sender, text), SendInsert)
      requires database.At(c, call)
      modifies database
      ensures database.world == Advance(old(database.world), c, ch)
      ensures database.At(c, call.(pc := match r
                                         case Err(e) => Done(Failed(e))
                                         case Ok((id, at)) => SendParticipants(id, at)))
      ensures database.db.chats == old(database.db).chats
      ensures 1 <= |text| <= 4096 ==>
                var id, at := old(database.db).nextMessage + ch.gap, old(database.db).now + ch.dt;
                && r == (if ch.fault == Fine then Ok((id, at)) else Err(Unavailable))
                && database.db.messages == (if ch.fault == Lost then old(database.db).messages
                                            else old(database.db).messages + [Message(id, chat, sender, text, at)])
      ensures !(1 <= |text| <= 4096) ==>
                && r == Err(if ch.fault == Fine then ConstraintViolation else Unavailable)
                && database.db.messages == old(database.db).messages && database.db.members == old(database.db).members
    {
      SenderTargets(database.world, c, call);
      var db := Elapsed(database.db, ch.dt);
      if !Acceptable(db, chat, text) {
        database.Commit(c, call, ch, db);
        return Err(if ch.fault == Fine then ConstraintViolation else Unavailable);
      }
      var id := db.nextMessage + ch.gap;
      database.Commit(c, call, ch, if ch.fault == Lost then db else InsertMessage(db, id, chat, sender, text));
      if ch.fault != Fine {
        return Err(Unavailable);
      }
      if Notified(db, chat, sender) == {} {
        return Err(NotFound);
      }
      return Ok((id, db.now));
    }
  }

  method PickNewest(rows: set<Message>) returns (m: Message)
    requires rows != {}
    ensures m in rows && forall x :: x in rows ==> x.createdAt <= m.createdAt
  {
    m :| m in rows;
    var rest := rows - {m};
    while rest != {}
      invariant rest <= rows && m in rows
      invariant forall x :: x in rows && x !in rest ==> x.createdAt <= m.createdAt
      decreases |rest|
    {
      var x :| x in rest;
      if x.createdAt > m.createdAt {
        m := x;
      }
      rest := rest - {x};
    }
  }

  /** What the rows read so far and the rows still to come have to do with each other. */
  ghost predicate Reading(rows: set<Message>, rest: set<Message>, r: seq<Message>) {
    && rest <= rows && |r| + |rest| == |rows|
    && NoRepeats(r) && Sorted(r)
    && (forall m :: m in r ==> m in rows && m !in rest)
    && (forall m :: m in rows ==> m in r || m in rest)
    && (r != [] ==> forall m :: m in rest ==> r[|r| - 1].createdAt >= m.createdAt)
  }

  lemma ReadOne(rows: set<Message>, rest: set<Message>, r: seq<Message>, m: Message)
    requires Reading(rows, rest, r) && m in rest && forall x :: x in rest ==> x.createdAt <= m.createdAt
    ensures Reading(rows, rest - {m}, r + [m])
  {
  }

  method Query(rows: set<Message>, limit: nat) returns (r: seq<Message>)
    ensures IsAnswer(rows, limit, r)
  {
    var rest := rows;
    r := [];
    while |r| < limit && rest != {}
      invariant Reading(rows, rest, r) && |r| <= limit
      decreases |rest|
    {
      var m := PickNewest(rest);
      ReadOne(rows, rest, r, m);
      r, rest := r + [m], rest - {m};
    }
  }

  lemma Trimmed(rows: set<Message>, cursor: Option<int>, n: nat, f: seq<Message>, page: seq<Message>, next: Option<int>)
    requires n >= 1 && IsAnswer(Older(rows, cursor), n + 1, f)
    requires if |f| > n then page == f[..n] && next == Some(f[n].createdAt) else page == f && next == None
    ensures IsPage(rows, cursor, n, page, next)
  {
    assert page == Page(f, n) && next == NextCursor(AsCoded, f, n);
  }

  datatype HistoryPage = HistoryPage(messages: seq<Message>, nextCursor: Option<int>)

  class Service {
    const database: Database
    const chats: ChatRepository
    const messages: MessageRepository
    const hub: Hub
    const wire: Wire<Message>

    ghost predicate Valid()
      reads this, database
    {
      database.Valid() && chats.database == database && messages.database == database
    }

    /** The hub is shared with the handlers that register streams. */
    ghost predicate HubReady()
      reads this, hub, hub.Arrays()
    {
      hub.Valid() && wire as object !in hub.Arrays() && database as object !in hub.Arrays()
    }

    constructor (hub: Hub)
      requires hub.Valid()
      ensures Valid() && HubReady() && this.hub == hub && wire.log == [] && database.world == Init()
    {
      this.hub := hub;
      wire := new Wire<Message>();
      var tables := new Database();
      database := tables;
      chats := new ChatRepository(tables);
      messages := new MessageRepository(tables);
    }

    method GetOrCreateChat(ghost c: int, initiator: int, recipient: int, env: Env)
      returns (r: Result<(int, bool, int)>)
      requires Valid() && c !in database.world.calls
      modifies database
      ensures Valid() && database.world == Completed(old(database.world), c, CreateReq(initiator, recipient), env)
      ensures database.world.calls[c].pc == Done(ChatOutcome(r))
      ensures r.Ok? <==> initiator != recipient && env(0).fault == Fine
                         && (env(1).fault == Fine
                             || exists id :: id in old(database.db).chats
                                             && {old(database.db).chats[id].user1, old(database.db).chats[id].user2}
                                                == {initiator, recipient})
      ensures r.Ok? ==>
                var (id, created, at) := r.value;
                var before, after := old(database.db).chats, database.db.chats;
                && id in after && {after[id].user1, after[id].user2} == {initiator, recipient} && after[id].createdAt == at
                && (created <==> forall i :: i in before ==> {before[i].user1, before[i].user2} != {initiator, recipient})
                && (if created then id !in before else after == before)
      ensures r.Err? ==> r.error == (if initiator == recipient && env(0).fault == Fine then ConstraintViolation
                                     else Unavailable)
      ensures initiator == recipient ==>
                database.db.chats == old(database.db).chats && database.db.members == old(database.db).members
    {
      r := chats.GetOrCreateChat(c, initiator, recipient, env);
    }

    /** One page of a chat, newest first, and the cursor for the next one. */
    method GetMessages(ghost c: int, callerId: Option<int>, chat: int, limit: int, cursor: Option<int>, env: Env)
      returns (r: Result<HistoryPage>)
      requires Valid() && c !in database.world.calls
      modifies database
      ensures Valid()
      ensures callerId.None? ==> r == Err(Unauthenticated) && database.world == old(database.world)
      ensures callerId.Some? ==>
        && database.world == Completed(old(database.world), c, ReadReq(chat, callerId.value), env)
        && database.world.calls[c].pc == Then(r, Done(HasRead))
      ensures r.Ok? ==>
        IsPage(Rows(old(database.db), chat), cursor, PageSize(limit), r.value.messages, r.value.nextCursor)
      ensures callerId.Some? ==>
        var member := (chat, callerId.value) in old(database.db).members;
        && (r.Ok? <==> member && env(0).fault == Fine && env(1).fault == Fine && env(2).fault == Fine)
        && (r.Err? ==> r.error == (if env(0).fault == Fine && !member then PermissionDenied else Unavailable))
        && (r.Ok? ==> database.db.members == old(database.db).members[(chat, callerId.value) := 0])
      ensures r.Ok? ==> |r.value.messages| <= if 1 <= limit <= 100 then limit else 50
      ensures r.Ok? ==> forall m :: m in r.value.messages ==>
                m in old(database.db).messages && m.chatId == chat && (cursor.Some? ==> m.createdAt < cursor.value)
      ensures r.Ok? ==> forall m | m in old(database.db).messages && m !in r.value.messages
                                   && m.chatId == chat && (cursor.Some? ==> m.createdAt < cursor.value) ::
                var (page, next) := (r.value.messages, r.value.nextCursor);
                && |page| == (if 1 <= limit <= 100 then limit else 50) && m.createdAt <= page[|page| - 1].createdAt
                && next.Some? && m.createdAt <= next.value
      ensures r.Ok? && r.value.nextCursor.Some? ==>
                exists m :: m in old(database.db).messages && m !in r.value.messages && m.chatId == chat
                            && (cursor.Some? ==> m.createdAt < cursor.value) && m.createdAt == r.value.nextCursor.value
      ensures r.Ok? ==> NoRepeats(r.value.messages) && Sorted(r.value.messages)
    {
      if callerId.None? {
        return Err(Unauthenticated);
      }
      var caller := callerId.value;
      ghost var call := Call(ReadReq(chat, caller), ReadCheck);
      database.Start(c, call.req);
      var isMember := chats.IsMember(c, call, chat, caller, env(0));
      if isMember != Ok(true) {
        EndedStays(database.world, c, env(1));
        EndedStays(database.world, c, env(2));
        return Err(if isMember.Err? then isMember.error else PermissionDenied);
      }
      var size := limit;
      if size <= 0 || size > 100 {
        size := 50;
      }
      var fetched := FetchPage(c, call.(pc := ReadQuery), chat, size, cursor, env(1));
      if fetched.Err? {
        EndedStays(database.world, c, env(2));
        return Err(fetched.error);
      }
      PageMeans(old(database.db), chat, cursor, size, fetched.value.messages, fetched.value.nextCursor);
      var reset := chats.ResetUnread(c, call.(pc := ReadReset), chat, caller, env(2));
      if reset.Err? {
        return Err(reset.error);
      }
      return fetched;
    }

    /** Ask for one message more than the page holds; if it is there, its timestamp is the next cursor. */
    method FetchPage(ghost c: int, ghost call: Call, chat: int, size: nat, cursor: Option<int>, ch: Choice)
      returns (r: Result<HistoryPage>)
      requires Valid() && size >= 1
      requires call.req.ReadReq? && call.req.chat == chat && call.pc == ReadQuery && database.At(c, call)
      modifies database
      ensures Valid() && database.world == Advance(old(database.world), c, ch)
      ensures database.db == Elapsed(old(database.db), ch.dt)
      ensures database.At(c, call.(pc := Then(r, ReadReset)))
      ensures if ch.fault == Fine then r.Ok? else r == Err(Unavailable)
      ensures r.Ok? ==> IsPage(Rows(old(database.db), chat), cursor, size, r.value.messages, r.value.nextCursor)
    {
      var fetched := messages.GetMessages(c, call, chat, size + 1, cursor, ch);
      if fetched.Err? {
        return Err(fetched.error);
      }
      var page, next := fetched.value, None;
      if |page| > size {
        next := Some(page[size].createdAt);
        page := page[..size];
      }
      Trimmed(Rows(old(database.db), chat), cursor, size, fetched.value, page, next);
      return Ok(HistoryPage(page, next));
    }

    /** Store a message, count it as unread and push it to both users' streams. */
    method SendMessage(ghost c: int, chat: int, sender: int, text: string, env: Env) returns (r: Result<(int, int)>)
      requires Valid() && HubReady() && c !in database.world.calls
      modifies database, wire
      ensures Valid()
      ensures database.world == Completed(old(database.world), c, SendReq(chat, sender, text), env)
      ensures Finished(database.world, c)
      ensures var o := database.world.calls[c].pc.outcome;
              && (match o
                  case Sent(id, at, _, _) => r == Ok((id, at))
                  case Failed(e) => r == Err(e)
                  case _ => false)
              && wire.log == old(wire.log) + Pushes(hub.lists, SendReq(chat, sender, text), o)
      ensures r.Ok? <==> (chat, sender) in old(database.db).members && 1 <= |text| <= 4096
                         && env(0).fault == Fine && env(1).fault == Fine && env(2).fault == Fine
      ensures r.Err? ==>
                && wire.log == old(wire.log)
                && r.error == (if env(0).fault != Fine then Unavailable
                               else if (chat, sender) !in old(database.db).members then PermissionDenied
                               else if env(1).fault == Fine && !(1 <= |text| <= 4096) then ConstraintViolation
                               else Unavailable)
      ensures r.Ok? ==>
                var msg := Message(r.value.0, chat, sender, text, r.value.1);
                && database.db.messages == old(database.db).messages + [msg] && chat in old(database.db).chats
                && var (user1, user2) := (old(database.db).chats[chat].user1, old(database.db).chats[chat].user2);
                   wire.log == old(wire.log)
                     + (Broadcast(Of(hub.lists, user1), msg) + Broadcast(Of(hub.lists, user2), msg))
      ensures |text| == 0 || |text| > 4096 || (chat, sender) !in old(database.db).members ==>
                database.db.messages == old(database.db).messages
    {
      ghost var call := Call(SendReq(chat, sender, text), SendCheck);
      database.Start(c, call.req);
      var isMember := chats.IsMember(c, call, chat, sender, env(0));
      if isMember != Ok(true) {
        EndedStays(database.world, c, env(1));
        EndedStays(database.world, c, env(2));
        return Err(if isMember.Err? then isMember.error else PermissionDenied);
      }
      var stored := messages.SendMessage(c, call.(pc := SendInsert), chat, sender, text, env(1));
      if stored.Err? {
        EndedStays(database.world, c, env(2));
        return Err(stored.error);
      }
      var (id, at) := stored.value;
      assert database.db.messages == old(database.db).messages + [Message(id, chat, sender, text, at)];
      var users := chats.GetParticipants(c, call.(pc := SendParticipants(id, at)), chat, env(2));
      if users.Err? {
        return Err(users.error);
      }
      var msg := Message(id, chat, sender, text, at);
      FanOut(users.value.0, users.value.1, msg);
      return Ok((id, at));
    }

    method FanOut(user1: int, user2: int, msg: Message)
      requires HubReady()
      modifies wire
      ensures wire.log == old(wire.log) + (Broadcast(Of(hub.lists, user1), msg) + Broadcast(Of(hub.lists, user2), msg))
    {
      hub.Push(user1, msg, wire);
      hub.Push(user2, msg, wire);
    }
  }
}
