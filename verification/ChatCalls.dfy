/** Chat calls that run from start to end with nothing in between. */
module ChatCalls {
  import opened Common
  import opened ChatTables
  import opened ChatMachine

  /** What the environment decides at each access of one call. */
  type Env = nat -> Choice

  ghost predicate NoFaults(env: Env) {
    forall k: nat :: env(k).fault == Fine
  }

  ghost function Begin(w: World, c: int, req: Request): World {
    Next(w, Start(c, req))
  }

  ghost function Advance(w: World, c: int, ch: Choice): World {
    Next(w, Go(c, ch))
  }

  /** No call makes more than three accesses; a finished call stays as it is. */
  ghost function Completed(w: World, c: int, req: Request, env: Env): World {
    Advance(Advance(Advance(Begin(w, c, req), c, env(0)), c, env(1)), c, env(2))
  }

  predicate Finished(w: World, c: int) {
    c in w.calls && w.calls[c].pc.Done?
  }

  lemma EndedStays(w: World, c: int, ch: Choice)
    requires Finished(w, c)
    ensures Advance(w, c, ch) == w
  {
  }

  /** Accesses still to come; 4 for a program counter that is not one of the request's. */
  function Left(req: Request, pc: Pc): nat {
    match pc
    case CreateInsert => if req.CreateReq? then 2 else 4
    case CreateMembers(_, _) => if req.CreateReq? then 1 else 4
    case SendCheck => if req.SendReq? then 3 else 4
    case SendInsert => if req.SendReq? then 2 else 4
    case SendParticipants(_, _) => if req.SendReq? then 1 else 4
    case ReadCheck => if req.ReadReq? then 3 else 4
    case ReadQuery => if req.ReadReq? then 2 else 4
    case ReadReset => if req.ReadReq? then 1 else 4
    case Done(_) => 0
  }

  lemma DecideCloser(st: State, call: Call, ch: Choice)
    requires 0 < Left(call.req, call.pc) <= 3
    ensures Left(call.req, Decide(st, call, ch).pc) < Left(call.req, call.pc)
  {
  }

  /** `w'` is `w` after an access of call `c`. */
  predicate OnlyMoved(w: World, w': World, c: int) {
    && c in w.calls && w'.calls.Keys == w.calls.Keys && w'.calls[c].req == w.calls[c].req
    && forall d :: d in w.calls && d != c ==> w'.calls[d] == w.calls[d]
  }

  function ToGo(w: World, c: int): nat
    requires c in w.calls
  {
    Left(w.calls[c].req, w.calls[c].pc)
  }

  lemma AdvanceCloser(w: World, c: int, ch: Choice)
    requires c in w.calls && ToGo(w, c) <= 3
    ensures var w' := Advance(w, c, ch);
            OnlyMoved(w, w', c) && ToGo(w', c) <= if ToGo(w, c) == 0 then 0 else ToGo(w, c) - 1
  {
    if !w.calls[c].pc.Done? { DecideCloser(Elapse(w.st, ch.dt), w.calls[c], ch); }
  }

  /** Every call has ended after its accesses, and no other call has moved. */
  lemma CallsFinish(w: World, c: int, req: Request, env: Env)
    requires c !in w.calls
    ensures var w' := Completed(w, c, req, env);
            && Finished(w', c) && w'.calls[c].req == req
            && w'.calls.Keys == w.calls.Keys + {c}
            && forall d :: d in w.calls ==> w'.calls[d] == w.calls[d]
  {
    var w0 := Begin(w, c, req);
    AdvanceCloser(w0, c, env(0));
    var w1 := Advance(w0, c, env(0));
    AdvanceCloser(w1, c, env(1));
    AdvanceCloser(Advance(w1, c, env(1)), c, env(2));
  }

  // ---- What a call stores and reports ----

  /** The message a send has stored, once it knows its id. */
  function Known(req: Request, pc: Pc): seq<Message> {
    if !req.SendReq? then []
    else
      match pc
      case SendParticipants(id, at) => [Message(id, req.chat, req.sender, req.text, at)]
      case Done(o) => Reported(req, o)
      case _ => []
  }

  /** The message a call has reported as sent. */
  function Reported(req: Request, o: Outcome): seq<Message> {
    if req.SendReq? && o.Sent? then [Message(o.id, req.chat, req.sender, req.text, o.at)] else []
  }

  /** The message an effect writes. */
  function Written(st: State, effect: Effect): seq<Message> {
    if effect.NewMessage? then [Message(effect.id, effect.chat, effect.sender, effect.text, st.db.now)] else []
  }

  lemma SendKnows(st: State, chat: int, sender: int, text: string, pc: Pc, ch: Choice)
    requires pc.SendInsert? ==> Notified(st.db, chat, sender) != {}
    requires pc.SendParticipants? ==> chat in st.db.chats
    ensures var m := DecideSend(st, chat, sender, text, pc, ch);
            var was, now := Known(SendReq(chat, sender, text), pc), Known(SendReq(chat, sender, text), m.pc);
            now == was + Written(st, m.effect) || (now == [] && ch.fault != Fine && m.pc.Done?)
  {
  }

  lemma OthersWriteNothing(st: State, call: Call, ch: Choice)
    requires !call.req.SendReq?
    ensures Written(st, Decide(st, call, ch).effect) == [] && Known(call.req, Decide(st, call, ch).pc) == []
  {
  }

  lemma CallKnows(st: State, c: int, call: Call, ch: Choice)
    requires StateInv(st) && CallInv(st, c, call) && !call.pc.Done?
    ensures var m := Decide(st, call, ch);
            var was, now := Known(call.req, call.pc), Known(call.req, m.pc);
            now == was + Written(st, m.effect) || (now == [] && ch.fault != Fine && m.pc.Done?)
  {
    match call.req
    case SendReq(chat, sender, text) =>
      SendTargets(st, c, call);
      SendKnows(st, chat, sender, text, call.pc, ch);
    case _ => OthersWriteNothing(st, call, ch);
  }

  lemma SendTargets(st: State, c: int, call: Call)
    requires StateInv(st) && CallInv(st, c, call) && call.req.SendReq?
    ensures call.pc.SendInsert? ==> Notified(st.db, call.req.chat, call.req.sender) != {}
    ensures call.pc.SendParticipants? ==> call.req.chat in st.db.chats
  {
    if call.pc.SendInsert? { CheckedSendCountsOne(st.db, call.req.chat, call.req.sender); }
  }

  /** `ms` is empty, or the one message that `req` asks to send. */
  predicate MessageOf(req: Request, ms: seq<Message>) {
    ms == [] || (req.SendReq? && ms == [Message(ms[0].id, req.chat, req.sender, req.text, ms[0].createdAt)])
  }

  /** The call will write nothing any more. */
  predicate PastInsert(pc: Pc) {
    !pc.SendCheck? && !pc.SendInsert?
  }

  /** A call writes its message before it is past its insertion, and is past it then. */
  predicate WritesOnce(req: Request, pc: Pc, pc': Pc, ms: seq<Message>) {
    && MessageOf(req, ms)
    && (ms != [] ==> !PastInsert(pc) && PastInsert(pc'))
    && (PastInsert(pc) ==> PastInsert(pc'))
  }

  lemma DecideWrites(st: State, call: Call, ch: Choice)
    ensures var m := Decide(st, call, ch); WritesOnce(call.req, call.pc, m.pc, Written(st, m.effect))
  {
  }

  lemma DecideNumbers(st: State, call: Call, ch: Choice)
    ensures var e := Decide(st, call, ch).effect; e.NewMessage? ==> e.id >= st.db.nextMessage
  {
  }

  /** `w'` has the messages of `w`, then `ms`, with new ids and times in between, and every chat of `w`. */
  ghost predicate Grown(w: World, w': World, ms: seq<Message>) {
    && w'.st.db.messages == w.st.db.messages + ms
    && w.st.db.nextMessage <= w'.st.db.nextMessage && w.st.db.now <= w'.st.db.now
    && (forall m :: m in ms ==> w.st.db.nextMessage <= m.id < w'.st.db.nextMessage)
    && (forall m :: m in ms ==> w.st.db.now <= m.createdAt <= w'.st.db.now)
    && (forall id :: id in w.st.db.chats ==> id in w'.st.db.chats && w'.st.db.chats[id] == w.st.db.chats[id])
  }

  lemma EffectGrows(w: World, w': World, c: int, st: State, effect: Effect)
    requires st.db.messages == w.st.db.messages && st.db.nextMessage == w.st.db.nextMessage
    requires st.db.chats == w.st.db.chats
    requires w.st.db.now <= st.db.now
    requires w'.st == Apply(st, c, effect) && Owned(st, c, effect)
    requires effect.NewMessage? ==> effect.id >= st.db.nextMessage
    ensures Grown(w, w', Written(st, effect))
  {
  }

  lemma MoveWrites(w: World, c: int, ch: Choice)
    requires Reachable(w) && c in w.calls && !w.calls[c].pc.Done?
    ensures var st, call := Elapse(w.st, ch.dt), w.calls[c];
            var m := Decide(st, call, ch);
            var was, now := Known(call.req, call.pc), Known(call.req, m.pc);
            && (now == was + Written(st, m.effect) || (now == [] && ch.fault != Fine && m.pc.Done?))
            && WritesOnce(call.req, call.pc, m.pc, Written(st, m.effect))
            && Owned(st, c, m.effect) && (m.effect.NewMessage? ==> m.effect.id >= st.db.nextMessage)
  {
    ReachableInv(w);
    var st, call := Elapse(w.st, ch.dt), w.calls[c];
    ElapseKeeps(w.st, ch.dt);
    ElapseStable(w.st, ch.dt, c, call);
    CallKnows(st, c, call, ch);
    DecideNumbers(st, call, ch);
    DecideWrites(st, call, ch);
    DecideOwned(st, c, call, ch);
  }

  /** One access of a call, `ms` being what it wrote and `was` and `now` what the call knows of. */
  lemma AdvanceStores(w: World, c: int, ch: Choice) returns (ms: seq<Message>)
    requires Reachable(w) && c in w.calls
    ensures Reachable(Advance(w, c, ch)) && c in Advance(w, c, ch).calls
    ensures Grown(w, Advance(w, c, ch), ms) && Tells(w, Advance(w, c, ch), c, ms, ch.fault == Fine)
    ensures Finished(w, c) ==> Advance(w, c, ch) == w && ms == []
  {
    ms := [];
    ReachableNext(w, Go(c, ch));
    if !w.calls[c].pc.Done? {
      var st, call := Elapse(w.st, ch.dt), w.calls[c];
      MoveWrites(w, c, ch);
      ms := Written(st, Decide(st, call, ch).effect);
      EffectGrows(w, Advance(w, c, ch), c, st, Decide(st, call, ch).effect);
    }
  }

  /** Call `c` wrote `ms` and knows of it besides what it knew, or of nothing any more. */
  predicate Tells(w: World, w': World, c: int, ms: seq<Message>, fine: bool)
    requires c in w.calls && c in w'.calls
  {
    && w'.calls[c].req == w.calls[c].req
    && WritesOnce(w.calls[c].req, w.calls[c].pc, w'.calls[c].pc, ms)
    && var was, now := Known(w.calls[c].req, w.calls[c].pc), Known(w.calls[c].req, w'.calls[c].pc);
       now == was + ms || (now == [] && !fine && w'.calls[c].pc.Done?)
  }

  lemma GrownTwice(w: World, w': World, w'': World, a: seq<Message>, b: seq<Message>)
    requires Grown(w, w', a) && Grown(w', w'', b)
    ensures Grown(w, w'', a + b)
  {
  }

  lemma GrowsFurther(w: World, w': World, c: int, ch: Choice, was: seq<Message>) returns (ms: seq<Message>)
    requires Reachable(w') && c in w'.calls && Grown(w, w', was)
    ensures var w'' := Advance(w', c, ch);
            Reachable(w'') && c in w''.calls && Grown(w, w'', was + ms) && Tells(w', w'', c, ms, ch.fault == Fine)
    ensures Finished(w', c) ==> Advance(w', c, ch) == w' && ms == []
  {
    ms := AdvanceStores(w', c, ch);
    GrownTwice(w, w', Advance(w', c, ch), was, ms);
  }

  lemma ToldIs(
    w0: World, w1: World, w2: World, w3: World, c: int, a: seq<Message>, b: seq<Message>, d: seq<Message>, env: Env)
    requires c in w0.calls && c in w1.calls && c in w2.calls && c in w3.calls && Finished(w3, c)
    requires Known(w0.calls[c].req, w0.calls[c].pc) == []
    requires Tells(w0, w1, c, a, env(0).fault == Fine)
    requires Tells(w1, w2, c, b, env(1).fault == Fine) && (Finished(w1, c) ==> w2 == w1 && b == [])
    requires Tells(w2, w3, c, d, env(2).fault == Fine) && (Finished(w2, c) ==> w3 == w2 && d == [])
    ensures var told := Reported(w0.calls[c].req, w3.calls[c].pc.outcome);
            && (told == a + b + d || told == []) && (NoFaults(env) ==> told == a + b + d)
            && MessageOf(w0.calls[c].req, a + b + d)
  {
    assert NoFaults(env) ==> env(0).fault == Fine && env(1).fault == Fine && env(2).fault == Fine;
  }

  /** A whole call writes nothing, or its request's one message. It reports just what it wrote, or nothing
      after a fault. */
  lemma CallStores(w: World, c: int, req: Request, env: Env) returns (ms: seq<Message>)
    requires Reachable(w) && c !in w.calls
    ensures var w' := Completed(w, c, req, env);
            && Reachable(w') && Finished(w', c) && Grown(w, w', ms)
            && var told := Reported(req, w'.calls[c].pc.outcome);
               MessageOf(req, ms) && (told == ms || told == []) && (NoFaults(env) ==> told == ms)
  {
    CallsFinish(w, c, req, env);
    var w0 := Begin(w, c, req);
    ReachableNext(w, Start(c, req));
    var a := GrowsFurther(w, w0, c, env(0), []);
    assert [] + a == a;
    var w1 := Advance(w0, c, env(0));
    var b := GrowsFurther(w, w1, c, env(1), a);
    var w2 := Advance(w1, c, env(1));
    var d := GrowsFurther(w, w2, c, env(2), a + b);
    ms := a + b + d;
    ToldIs(w0, w1, w2, Advance(w2, c, env(2)), c, a, b, d, env);
  }

  // ---- Which calls reset a counter ----

  predicate HasJustRead(req: Request, pc: Pc) {
    req.ReadReq? && pc == Done(HasRead)
  }

  /** A call that has not ended: its last access resets the caller's counter if the call succeeds. */
  lemma AdvanceResets(w: World, c: int, ch: Choice)
    requires c in w.calls && !w.calls[c].pc.Done? && ch.fault == Fine && ToGo(w, c) <= 3
    ensures var req, w' := w.calls[c].req, Advance(w, c, ch);
            && w'.st.resets == (if HasJustRead(req, w'.calls[c].pc)
                                then w.st.resets[(req.chat, req.caller) := |w.st.db.messages|] else w.st.resets)
            && (req.ReadReq? ==> w'.st.db.messages == w.st.db.messages)
  {
  }

  /** Without faults, exactly the reads that succeed reset their caller's counter. */
  lemma CallResets(w: World, c: int, req: Request, env: Env)
    requires c !in w.calls && NoFaults(env)
    ensures var w' := Completed(w, c, req, env);
            Finished(w', c)
            && w'.st.resets == (if HasJustRead(req, w'.calls[c].pc)
                                then w.st.resets[(req.chat, req.caller) := |w'.st.db.messages|] else w.st.resets)
  {
    CallsFinish(w, c, req, env);
    var w0 := Begin(w, c, req);
    assert env(0).fault == Fine && env(1).fault == Fine && env(2).fault == Fine;
    AdvanceCloser(w0, c, env(0));
    AdvanceResets(w0, c, env(0));
    var w1 := Advance(w0, c, env(0));
    AdvanceCloser(w1, c, env(1));
    if !Finished(w1, c) { AdvanceResets(w1, c, env(1)); }
    var w2 := Advance(w1, c, env(1));
    if !Finished(w2, c) { AdvanceResets(w2, c, env(2)); }
  }
}
