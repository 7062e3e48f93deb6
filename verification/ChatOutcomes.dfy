/** What each whole chat call ends in, and what it leaves in the tables, by what was stored when it began and
    which of its accesses failed. */
module ChatOutcomes {
  import opened Common
  import opened ChatTables
  import opened ChatMachine
  import opened ChatCalls

  // ---- Opening a chat ----

  lemma SameUsers(chat: Chat, x: int, y: int)
    requires chat.user1 < chat.user2
    ensures IsPair(chat, Low(x, y), High(x, y)) <==> {chat.user1, chat.user2} == {x, y}
  {
    var users, asked := {chat.user1, chat.user2}, {x, y};
    if users == asked {
      assert chat.user1 in asked && chat.user2 in asked && x in users && y in users;
    }
  }

  /** The first statement of a creation. */
  lemma InsertIs(w: World, c: int, x: int, y: int, ch: Choice)
    requires c in w.calls && w.calls[c] == Call(CreateReq(x, y), CreateInsert)
    ensures var w', found := Advance(w, c, ch), ChatOf(w.st.db.chats, Low(x, y), High(x, y));
            && w'.st.db.messages == w.st.db.messages && w'.st.db.members == w.st.db.members
            && c in w'.calls && w'.calls[c].req == CreateReq(x, y)
            && if x == y || found.Some? || ch.fault == Lost
               then w'.st.db.chats == w.st.db.chats && w'.calls[c].pc.Done?
                    && w'.calls[c].pc.outcome == (if ch.fault != Fine then Failed(Unavailable)
                                                  else if x == y then Failed(ConstraintViolation)
                                                  else Opened(found.value, false, w.st.db.chats[found.value].createdAt))
               else
                 var id, at := w.st.db.nextChat + ch.gap, w.st.db.now + ch.dt;
                 && w'.st.db.chats == w.st.db.chats[id := Chat(Low(x, y), High(x, y), at)]
                 && w'.calls[c].pc == After(ch.fault, CreateMembers(id, at))
  {
  }

  /** A call whose first statement ends it. */
  lemma EndsAtOnce(w: World, c: int, req: Request, env: Env)
    requires Finished(Advance(Begin(w, c, req), c, env(0)), c)
    ensures Completed(w, c, req, env) == Advance(Begin(w, c, req), c, env(0))
  {
    var w1 := Advance(Begin(w, c, req), c, env(0));
    EndedStays(w1, c, env(1));
    EndedStays(w1, c, env(2));
  }

  lemma FailedInsertIsReported(w: World, c: int, x: int, y: int, env: Env)
    requires c !in w.calls && env(0).fault != Fine
    ensures var w' := Completed(w, c, CreateReq(x, y), env);
            && Finished(w', c) && w'.calls[c].pc.outcome == Failed(Unavailable)
            && w'.st.db.members == w.st.db.members && w'.st.db.messages == w.st.db.messages
  {
    InsertIs(Begin(w, c, CreateReq(x, y)), c, x, y, env(0));
    EndsAtOnce(w, c, CreateReq(x, y), env);
  }

  /** Nobody opens a chat with themselves, whatever fails. */
  lemma SelfChatIsRefused(w: World, c: int, x: int, env: Env)
    requires c !in w.calls
    ensures var w' := Completed(w, c, CreateReq(x, x), env);
            && Finished(w', c)
            && w'.calls[c].pc.outcome == Failed(if env(0).fault == Fine then ConstraintViolation else Unavailable)
            && w'.st.db.chats == w.st.db.chats && w'.st.db.members == w.st.db.members
            && w'.st.db.messages == w.st.db.messages
  {
    InsertIs(Begin(w, c, CreateReq(x, x)), c, x, x, env(0));
    EndsAtOnce(w, c, CreateReq(x, x), env);
  }

  /** A chat of the two users that is there already is the one reported, and nothing changes. */
  lemma ExistingChatIsFound(w: World, c: int, x: int, y: int, env: Env, id: int)
    requires Reachable(w) && c !in w.calls
    requires id in w.st.db.chats && {w.st.db.chats[id].user1, w.st.db.chats[id].user2} == {x, y}
    ensures var w' := Completed(w, c, CreateReq(x, y), env);
            && Finished(w', c)
            && w'.calls[c].pc.outcome == (if env(0).fault == Fine then Opened(id, false, w.st.db.chats[id].createdAt)
                                          else Failed(Unavailable))
            && w'.st.db.chats == w.st.db.chats && w'.st.db.members == w.st.db.members
            && w'.st.db.messages == w.st.db.messages
  {
    ReachableInv(w);
    var chats := w.st.db.chats;
    SameUsers(chats[id], x, y);
    var found := ChatOf(chats, Low(x, y), High(x, y));
    assert SamePair(chats[found.value], chats[id]);
    InsertIs(Begin(w, c, CreateReq(x, y)), c, x, y, env(0));
    EndsAtOnce(w, c, CreateReq(x, y), env);
  }

  predicate Unpaired(chats: map<int, Chat>, x: int, y: int) {
    forall id :: id in chats ==> {chats[id].user1, chats[id].user2} != {x, y}
  }

  lemma UnpairedIsNotFound(w: World, x: int, y: int)
    requires Reachable(w) && Unpaired(w.st.db.chats, x, y)
    ensures ChatOf(w.st.db.chats, Low(x, y), High(x, y)).None?
  {
    ReachableInv(w);
    var found := ChatOf(w.st.db.chats, Low(x, y), High(x, y));
    if found.Some? { SameUsers(w.st.db.chats[found.value], x, y); }
  }

  /** The second statement of a creation. */
  lemma MembersAre(w: World, c: int, ch: Choice)
    requires Reachable(w) && c in w.calls && w.calls[c].req.CreateReq? && w.calls[c].pc.CreateMembers?
    ensures var w', req, id := Advance(w, c, ch), w.calls[c].req, w.calls[c].pc.id;
            && w'.st.db.chats == w.st.db.chats && w'.st.db.messages == w.st.db.messages
            && w'.st.db.members == (if ch.fault == Lost then w.st.db.members
                                    else w.st.db.members[(id, req.initiator) := 0][(id, req.recipient) := 0])
            && Finished(w', c)
            && w'.calls[c].pc.outcome == (if ch.fault == Fine then Opened(id, true, w.calls[c].pc.at)
                                          else Failed(Unavailable))
  {
    ReachableInv(w);
    assert CallInv(w.st, c, w.calls[c]);
  }

  /** A creation for two users without a chat, after its first statement. */
  lemma ChatIsInserted(w: World, c: int, x: int, y: int, env: Env) returns (w1: World)
    requires Reachable(w) && c !in w.calls && env(0).fault == Fine && x != y && Unpaired(w.st.db.chats, x, y)
    ensures Reachable(w1)
    ensures Completed(w, c, CreateReq(x, y), env) == Advance(w1, c, env(1))
    ensures var id, at := w.st.db.nextChat + env(0).gap, w.st.db.now + env(0).dt;
            && w1.st.db.chats == w.st.db.chats[id := Chat(Low(x, y), High(x, y), at)]
            && w1.st.db.members == w.st.db.members && w1.st.db.messages == w.st.db.messages
            && c in w1.calls && w1.calls[c] == Call(CreateReq(x, y), CreateMembers(id, at))
  {
    var w0 := Begin(w, c, CreateReq(x, y));
    w1 := Advance(w0, c, env(0));
    UnpairedIsNotFound(w, x, y);
    InsertIs(w0, c, x, y, env(0));
    ReachableNext(w, Start(c, CreateReq(x, y)));
    ReachableNext(w0, Go(c, env(0)));
    MembersAre(w1, c, env(1));
    EndedStays(Advance(w1, c, env(1)), c, env(2));
  }

  lemma NextIsNew(w: World, gap: nat)
    requires Reachable(w)
    ensures w.st.db.nextChat + gap !in w.st.db.chats
  {
    ReachableInv(w);
  }

  /** Two users without a chat get one, unless an access fails. */
  lemma NewChatIsOpened(w: World, c: int, x: int, y: int, env: Env) returns (id: int)
    requires Reachable(w) && c !in w.calls && env(0).fault == Fine && x != y && Unpaired(w.st.db.chats, x, y)
    ensures id == w.st.db.nextChat + env(0).gap && id !in w.st.db.chats
    ensures var w', at := Completed(w, c, CreateReq(x, y), env), w.st.db.now + env(0).dt;
            && w'.st.db.chats == w.st.db.chats[id := Chat(Low(x, y), High(x, y), at)]
            && Finished(w', c)
            && w'.calls[c].pc.outcome == (if env(1).fault == Fine then Opened(id, true, at) else Failed(Unavailable))
  {
    id := w.st.db.nextChat + env(0).gap;
    NextIsNew(w, env(0).gap);
    var w1 := ChatIsInserted(w, c, x, y, env);
    MembersAre(w1, c, env(1));
  }

  /** A new chat has both users as its members, with nothing unread, unless their insertion is lost. */
  lemma NewChatIsFilled(w: World, c: int, x: int, y: int, env: Env)
    requires Reachable(w) && c !in w.calls && env(0).fault == Fine && x != y && Unpaired(w.st.db.chats, x, y)
    ensures var db, db' := w.st.db, Completed(w, c, CreateReq(x, y), env).st.db;
            var id := db.nextChat + env(0).gap;
            && db'.members == (if env(1).fault == Lost then db.members else db.members[(id, x) := 0][(id, y) := 0])
            && db'.messages == db.messages
  {
    var w1 := ChatIsInserted(w, c, x, y, env);
    MembersAre(w1, c, env(1));
  }

  /** A creation succeeds exactly if its users differ, its first statement works, and so does its second
      unless the pair has a chat already. Then it reports the row of the pair, in either order of asking,
      and `created` tells whether that row is new. */
  lemma CreationSucceedsIff(w: World, c: int, x: int, y: int, env: Env)
    requires Reachable(w) && c !in w.calls
    ensures var w' := Completed(w, c, CreateReq(x, y), env);
            var db, db' := w.st.db, w'.st.db;
            && Finished(w', c)
            && var o := w'.calls[c].pc.outcome;
               && (o.Opened? <==> x != y && env(0).fault == Fine
                                  && (env(1).fault == Fine
                                      || exists id :: id in db.chats && {db.chats[id].user1, db.chats[id].user2} == {x, y}))
               && if o.Opened?
                  then
                    && o.id in db'.chats && {db'.chats[o.id].user1, db'.chats[o.id].user2} == {x, y}
                    && db'.chats[o.id].createdAt == o.at
                    && (o.created <==>
                          forall id :: id in db.chats ==> {db.chats[id].user1, db.chats[id].user2} != {x, y})
                    && (if o.created then o.id !in db.chats else db'.chats == db.chats)
                  else o == Failed(if x == y && env(0).fault == Fine then ConstraintViolation else Unavailable)
  {
    if x == y {
      SelfChatIsRefused(w, c, x, env);
    } else if env(0).fault != Fine {
      FailedInsertIsReported(w, c, x, y, env);
    } else if Unpaired(w.st.db.chats, x, y) {
      var id := NewChatIsOpened(w, c, x, y, env);
      SameUsers(Completed(w, c, CreateReq(x, y), env).st.db.chats[id], x, y);
    } else {
      var id :| id in w.st.db.chats && {w.st.db.chats[id].user1, w.st.db.chats[id].user2} == {x, y};
      ExistingChatIsFound(w, c, x, y, env, id);
    }
  }

  // ---- Sending ----

  /** The membership check of a send. */
  lemma SendCheckIs(w: World, c: int, ch: Choice)
    requires c in w.calls && w.calls[c].req.SendReq? && w.calls[c].pc == SendCheck
    ensures var w', req := Advance(w, c, ch), w.calls[c].req;
            && w'.st.db == Elapsed(w.st.db, ch.dt)
            && c in w'.calls
            && w'.calls[c] == Call(req, After(ch.fault, if (req.chat, req.sender) in w.st.db.members then SendInsert
                                                         else Done(Failed(PermissionDenied))))
  {
  }

  /** A member's chat is there, and has another member to notify. */
  lemma MemberTargets(w: World, chat: int, sender: int)
    requires Reachable(w) && (chat, sender) in w.st.db.members
    ensures chat in w.st.db.chats && Notified(w.st.db, chat, sender) != {}
  {
    ReachableInv(w);
    CheckedSendCountsOne(w.st.db, chat, sender);
  }

  lemma InsertDecided(st: State, chat: int, sender: int, text: string, ch: Choice)
    requires chat in st.db.chats && Notified(st.db, chat, sender) != {}
    ensures var id := st.db.nextMessage + ch.gap;
            DecideSend(st, chat, sender, text, SendInsert, ch) ==
              (if 1 <= |text| <= 4096
               then Move(Settle(ch.fault, NewMessage(id, chat, sender, text)),
                         After(ch.fault, SendParticipants(id, st.db.now)))
               else Move(Nothing, Refused(ch.fault)))
  {
  }

  /** The insertion of a message by a member. */
  lemma SendInsertIs(w: World, c: int, chat: int, sender: int, text: string, ch: Choice)
    requires c in w.calls && w.calls[c] == Call(SendReq(chat, sender, text), SendInsert)
    requires chat in w.st.db.chats && Notified(w.st.db, chat, sender) != {}
    ensures var w' := Advance(w, c, ch);
            var id, at := w.st.db.nextMessage + ch.gap, w.st.db.now + ch.dt;
            && w'.st.db.chats == w.st.db.chats
            && c in w'.calls && w'.calls[c].req == w.calls[c].req
            && if 1 <= |text| <= 4096
               then w'.calls[c].pc == After(ch.fault, SendParticipants(id, at))
                    && w'.st.db.messages == w.st.db.messages
                         + (if ch.fault == Lost then [] else [Message(id, chat, sender, text, at)])
               else w'.calls[c].pc == Refused(ch.fault)
                    && w'.st.db.messages == w.st.db.messages && w'.st.db.members == w.st.db.members
  {
    var st := Elapse(w.st, ch.dt);
    assert Notified(st.db, chat, sender) == Notified(w.st.db, chat, sender);
    InsertDecided(st, chat, sender, text, ch);
  }

  lemma ParticipantsAre(w: World, c: int, ch: Choice)
    requires Reachable(w) && c in w.calls && w.calls[c].req.SendReq? && w.calls[c].pc.SendParticipants?
    ensures var w', req, pc := Advance(w, c, ch), w.calls[c].req, w.calls[c].pc;
            && w'.st.db == Elapsed(w.st.db, ch.dt)
            && req.chat in w.st.db.chats && Finished(w', c)
            && w'.calls[c].pc.outcome ==
                 (if ch.fault == Fine
                  then Sent(pc.id, pc.at, w.st.db.chats[req.chat].user1, w.st.db.chats[req.chat].user2)
                  else Failed(Unavailable))
  {
    ReachableInv(w);
    assert CallInv(w.st, c, w.calls[c]);
  }

  /** A send whose check fails, or finds no member, stores nothing. */
  lemma UncheckedSendIsRefused(w: World, c: int, chat: int, sender: int, text: string, env: Env)
    requires c !in w.calls && (env(0).fault != Fine || (chat, sender) !in w.st.db.members)
    ensures var w' := Completed(w, c, SendReq(chat, sender, text), env);
            && Finished(w', c)
            && w'.calls[c].pc.outcome == Failed(if env(0).fault == Fine then PermissionDenied else Unavailable)
            && w'.st.db == Elapsed(w.st.db, env(0).dt)
  {
    SendCheckIs(Begin(w, c, SendReq(chat, sender, text)), c, env(0));
    EndsAtOnce(w, c, SendReq(chat, sender, text), env);
  }

  /** A member's send after its first two statements. */
  lemma MemberSends(w: World, c: int, chat: int, sender: int, text: string, env: Env) returns (w2: World)
    requires Reachable(w) && c !in w.calls && env(0).fault == Fine && (chat, sender) in w.st.db.members
    ensures Completed(w, c, SendReq(chat, sender, text), env) == Advance(w2, c, env(2)) && Reachable(w2)
    ensures w2.st.db.chats == w.st.db.chats && chat in w.st.db.chats
    ensures c in w2.calls && w2.calls[c].req == SendReq(chat, sender, text)
    ensures var id, at := w.st.db.nextMessage + env(1).gap, w.st.db.now + env(0).dt + env(1).dt;
            if 1 <= |text| <= 4096
            then w2.calls[c].pc == After(env(1).fault, SendParticipants(id, at))
                 && w2.st.db.messages == w.st.db.messages
                      + (if env(1).fault == Lost then [] else [Message(id, chat, sender, text, at)])
            else w2.calls[c].pc == Refused(env(1).fault)
                 && w2.st.db.messages == w.st.db.messages && w2.st.db.members == w.st.db.members
  {
    var w0 := Begin(w, c, SendReq(chat, sender, text));
    var w1 := Advance(w0, c, env(0));
    w2 := Advance(w1, c, env(1));
    ReachableNext(w, Start(c, SendReq(chat, sender, text)));
    ReachableNext(w0, Go(c, env(0)));
    ReachableNext(w1, Go(c, env(1)));
    SendCheckIs(w0, c, env(0));
    MemberTargets(w1, chat, sender);
    SendInsertIs(w1, c, chat, sender, text, env(1));
  }

  /** A member's text that is empty or longer than 4096 characters is refused, and nothing is stored. */
  lemma UnfitTextIsRefused(w: World, c: int, chat: int, sender: int, text: string, env: Env)
    requires Reachable(w) && c !in w.calls && env(0).fault == Fine && (chat, sender) in w.st.db.members
    requires |text| == 0 || |text| > 4096
    ensures var w' := Completed(w, c, SendReq(chat, sender, text), env);
            && Finished(w', c)
            && w'.calls[c].pc.outcome == Failed(if env(1).fault == Fine then ConstraintViolation else Unavailable)
            && w'.st.db.messages == w.st.db.messages && w'.st.db.members == w.st.db.members
            && w'.st.db.chats == w.st.db.chats
  {
    var w2 := MemberSends(w, c, chat, sender, text, env);
    EndedStays(w2, c, env(2));
  }

  /** A member's text of 1 to 4096 characters is stored unless the insertion is lost, and reported unless
      something fails. */
  lemma FitTextIsStored(w: World, c: int, chat: int, sender: int, text: string, env: Env)
    requires Reachable(w) && c !in w.calls && env(0).fault == Fine && (chat, sender) in w.st.db.members
    requires 1 <= |text| <= 4096
    ensures var w' := Completed(w, c, SendReq(chat, sender, text), env);
            var id, at := w.st.db.nextMessage + env(1).gap, w.st.db.now + env(0).dt + env(1).dt;
            && w'.st.db.chats == w.st.db.chats && chat in w.st.db.chats
            && w'.st.db.messages == w.st.db.messages
                 + (if env(1).fault == Lost then [] else [Message(id, chat, sender, text, at)])
            && Finished(w', c)
            && w'.calls[c].pc.outcome ==
                 (if env(1).fault == Fine && env(2).fault == Fine
                  then Sent(id, at, w.st.db.chats[chat].user1, w.st.db.chats[chat].user2) else Failed(Unavailable))
  {
    var w2 := MemberSends(w, c, chat, sender, text, env);
    if env(1).fault == Fine {
      ParticipantsAre(w2, c, env(2));
    } else {
      EndedStays(w2, c, env(2));
    }
  }

  /** A send succeeds exactly if the sender is a member, the text has 1 to 4096 characters and no access fails;
      then its message is stored and reported with the chat's users. */
  lemma SendSucceedsIff(w: World, c: int, chat: int, sender: int, text: string, env: Env)
    requires Reachable(w) && c !in w.calls
    ensures var w' := Completed(w, c, SendReq(chat, sender, text), env);
            && Finished(w', c)
            && var o, member := w'.calls[c].pc.outcome, (chat, sender) in w.st.db.members;
               && (o.Sent? <==> member && 1 <= |text| <= 4096
                                && env(0).fault == Fine && env(1).fault == Fine && env(2).fault == Fine)
               && if o.Sent?
                  then
                    && chat in w.st.db.chats
                    && o.user1 == w.st.db.chats[chat].user1 && o.user2 == w.st.db.chats[chat].user2
                    && w'.st.db.messages == w.st.db.messages + [Message(o.id, chat, sender, text, o.at)]
                  else
                    o == Failed(if env(0).fault != Fine then Unavailable
                                else if !member then PermissionDenied
                                else if env(1).fault == Fine && !(1 <= |text| <= 4096) then ConstraintViolation
                                else Unavailable)
  {
    if (chat, sender) !in w.st.db.members || env(0).fault != Fine {
      UncheckedSendIsRefused(w, c, chat, sender, text, env);
    } else if 1 <= |text| <= 4096 {
      FitTextIsStored(w, c, chat, sender, text, env);
    } else {
      UnfitTextIsRefused(w, c, chat, sender, text, env);
    }
  }

  /** Whatever fails, what a send stores is its message if the sender is a member, the text has 1 to 4096
      characters, the check works and the insertion is not lost, and nothing otherwise. */
  lemma SendStoresIff(w: World, c: int, chat: int, sender: int, text: string, env: Env)
    requires Reachable(w) && c !in w.calls
    ensures var stored := Completed(w, c, SendReq(chat, sender, text), env).st.db.messages;
            if (chat, sender) in w.st.db.members && 1 <= |text| <= 4096
               && env(0).fault == Fine && env(1).fault != Lost
            then exists id, at :: stored == w.st.db.messages + [Message(id, chat, sender, text, at)]
            else stored == w.st.db.messages
  {
    if (chat, sender) !in w.st.db.members || env(0).fault != Fine {
      UncheckedSendIsRefused(w, c, chat, sender, text, env);
    } else if 1 <= |text| <= 4096 {
      FitTextIsStored(w, c, chat, sender, text, env);
    } else {
      UnfitTextIsRefused(w, c, chat, sender, text, env);
    }
  }

  // ---- What the table holds ----

  lemma StepStoresFitTexts(w: World, s: Step)
    requires forall m :: m in w.st.db.messages ==> 1 <= |m.text| <= 4096
    ensures forall m :: m in Next(w, s).st.db.messages ==> 1 <= |m.text| <= 4096
  {
  }

  /** In every interleaving, whatever fails, every stored text has 1 to 4096 characters. */
  lemma {:induction false} StoredTextsFit(steps: seq<Step>)
    ensures forall m :: m in Run(Init(), steps).st.db.messages ==> 1 <= |m.text| <= 4096
  {
    if steps != [] {
      var before := steps[..|steps| - 1];
      StoredTextsFit(before);
      RunLast(Init(), steps);
      StepStoresFitTexts(Run(Init(), before), steps[|steps| - 1]);
    }
  }

  // ---- Reading ----

  lemma ReadCheckIs(w: World, c: int, ch: Choice)
    requires c in w.calls && w.calls[c].req.ReadReq? && w.calls[c].pc == ReadCheck
    ensures var w', req := Advance(w, c, ch), w.calls[c].req;
            && w'.st.db == Elapsed(w.st.db, ch.dt)
            && c in w'.calls
            && w'.calls[c] == Call(req, After(ch.fault, if (req.chat, req.caller) in w.st.db.members then ReadQuery
                                                         else Done(Failed(PermissionDenied))))
  {
  }

  lemma ReadQueryIs(w: World, c: int, ch: Choice)
    requires c in w.calls && w.calls[c].req.ReadReq? && w.calls[c].pc == ReadQuery
    ensures var w' := Advance(w, c, ch);
            && w'.st.db == Elapsed(w.st.db, ch.dt)
            && c in w'.calls && w'.calls[c] == Call(w.calls[c].req, After(ch.fault, ReadReset))
  {
  }

  lemma ReadResetIs(w: World, c: int, ch: Choice)
    requires c in w.calls && w.calls[c].req.ReadReq? && w.calls[c].pc == ReadReset
    requires (w.calls[c].req.chat, w.calls[c].req.caller) in w.st.db.members
    ensures var w', key := Advance(w, c, ch), (w.calls[c].req.chat, w.calls[c].req.caller);
            && w'.st.db.chats == w.st.db.chats && w'.st.db.messages == w.st.db.messages
            && w'.st.db.members == (if ch.fault == Lost then w.st.db.members else w.st.db.members[key := 0])
            && c in w'.calls && w'.calls[c] == Call(w.calls[c].req, After(ch.fault, Done(HasRead)))
  {
  }

  /** A read succeeds exactly if the caller is a member and no access fails; then it has set the caller's
      counter to 0, and no other. It never changes anything else. */
  lemma ReadSucceedsIff(w: World, c: int, chat: int, caller: int, env: Env)
    requires c !in w.calls
    ensures var w' := Completed(w, c, ReadReq(chat, caller), env);
            var member, reached := (chat, caller) in w.st.db.members, env(0).fault == Fine && env(1).fault == Fine;
            && w'.st.db.chats == w.st.db.chats && w'.st.db.messages == w.st.db.messages
            && w'.st.db.members == (if member && reached && env(2).fault != Lost
                                    then w.st.db.members[(chat, caller) := 0] else w.st.db.members)
            && Finished(w', c)
            && w'.calls[c].pc.outcome == (if member && reached && env(2).fault == Fine then HasRead
                                          else if !member && env(0).fault == Fine then Failed(PermissionDenied)
                                          else Failed(Unavailable))
  {
    var w0 := Begin(w, c, ReadReq(chat, caller));
    var w1 := Advance(w0, c, env(0));
    ReadCheckIs(w0, c, env(0));
    if (chat, caller) in w.st.db.members && env(0).fault == Fine {
      var w2 := Advance(w1, c, env(1));
      ReadQueryIs(w1, c, env(1));
      if env(1).fault == Fine { ReadResetIs(w2, c, env(2)); } else { EndedStays(w2, c, env(2)); }
    } else {
      EndsAtOnce(w, c, ReadReq(chat, caller), env);
    }
  }
}
