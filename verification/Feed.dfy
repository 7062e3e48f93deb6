/** Live feeds against stored history: streams come and go and calls are made, one at a time. */
module Feed {
  import opened Common
  import opened StreamLists
  import opened StreamHub
  import opened Registration
  import opened ChatTables
  import opened ChatMachine
  import opened ChatCalls

  /** The deliveries a finished call causes: one per stream of the first user, then one per stream of
      the second. */
  function Pushes<S>(lists: Lists<S>, req: Request, o: Outcome): seq<Delivery<S, Message>> {
    if req.SendReq? && o.Sent? then
      var m := Message(o.id, req.chat, req.sender, req.text, o.at);
      Broadcast(Of(lists, o.user1), m) + Broadcast(Of(lists, o.user2), m)
    else []
  }

  /** One registration of a stream: how many messages had been reported as sent when it began and ended. */
  datatype Visit = Visit(user: int, from: nat, to: Option<nat>)

  /** `sent`, `visits` and `read` are history: the messages reported as sent, the registrations, and how
      many messages there were when a user last read a chat. */
  datatype Site<S> = Site(
    w: World, lists: Lists<S>, live: seq<Handler<S>>, log: seq<Delivery<S, Message>>,
    sent: seq<Message>, visits: map<S, Visit>, read: map<(int, int), nat>)

  datatype Op<S> =
    | Open(user: int, stream: S)
    | Close(k: nat)
    | Serve(c: int, req: Request, env: Env)

  function Empty<S>(): Site<S> {
    Site(Init(), map[], [], [], [], map[], map[])
  }

  /** Each stream object is registered once. */
  function OpenStream<S(==)>(f: Site<S>, user: int, s: S): Site<S> {
    if s in f.visits then f
    else f.(lists := Register(f.lists, user, s), live := f.live + [Handler(user, s)],
            visits := f.visits[s := Visit(user, |f.sent|, None)])
  }

  function CloseStream<S(==)>(f: Site<S>, k: nat): Site<S> {
    if k >= |f.live| || f.live[k].stream !in f.visits then f
    else
      var h := f.live[k];
      f.(lists := Deregister(f.lists, h.user, h.stream), live := Without(f.live, k),
         visits := f.visits[h.stream := f.visits[h.stream].(to := Some(|f.sent|))])
  }

  ghost function ServeCall<S>(f: Site<S>, c: int, req: Request, env: Env): Site<S> {
    var w' := Completed(f.w, c, req, env);
    if c in f.w.calls || !Finished(w', c) then f
    else
      var o := w'.calls[c].pc.outcome;
      f.(w := w', log := f.log + Pushes(f.lists, req, o), sent := f.sent + Reported(req, o),
         read := if HasJustRead(req, Done(o)) then f.read[(req.chat, req.caller) := |w'.st.db.messages|] else f.read)
  }

  ghost function Do<S>(f: Site<S>, op: Op<S>): Site<S> {
    match op
    case Open(user, s) => OpenStream(f, user, s)
    case Close(k) => CloseStream(f, k)
    case Serve(c, req, env) => ServeCall(f, c, req, env)
  }

  ghost function DoAll<S>(ops: seq<Op<S>>): Site<S> {
    if ops == [] then Empty() else Do(DoAll(ops[..|ops| - 1]), ops[|ops| - 1])
  }

  // ---- What a stream gets, and what its user should get ----

  function Received<S(==)>(log: seq<Delivery<S, Message>>, s: S): seq<Message> {
    if log == [] then []
    else
      var last := log[|log| - 1];
      Received(log[..|log| - 1], s) + if last.to == s then [last.msg] else []
  }

  predicate Involves(chats: map<int, Chat>, m: Message, user: int) {
    m.chatId in chats && (user == chats[m.chatId].user1 || user == chats[m.chatId].user2)
  }

  /** Those of `ms` that were sent in a chat of `user`. */
  function ForUser(chats: map<int, Chat>, ms: seq<Message>, user: int): seq<Message> {
    if ms == [] then []
    else
      var m := ms[|ms| - 1];
      ForUser(chats, ms[..|ms| - 1], user) + if Involves(chats, m, user) then [m] else []
  }

  lemma ForUserMore(chats: map<int, Chat>, ms: seq<Message>, m: Message, user: int)
    ensures ForUser(chats, ms + [m], user) == ForUser(chats, ms, user) + if Involves(chats, m, user) then [m] else []
  {
    assert (ms + [m])[..|ms|] == ms;
  }

  /** Chats opened later do not change to whom a message went. */
  lemma {:induction false} ForUserStable(chats: map<int, Chat>, chats': map<int, Chat>, ms: seq<Message>, user: int)
    requires forall id :: id in chats ==> id in chats' && chats'[id] == chats[id]
    requires forall m :: m in ms ==> m.chatId in chats
    ensures ForUser(chats', ms, user) == ForUser(chats, ms, user)
  {
    if ms != [] {
      assert ms[|ms| - 1] in ms;
      ForUserStable(chats, chats', ms[..|ms| - 1], user);
    }
  }

  lemma {:induction false} ReceivedConcat<S>(a: seq<Delivery<S, Message>>, b: seq<Delivery<S, Message>>, s: S)
    ensures Received(a + b, s) == Received(a, s) + Received(b, s)
  {
    if b == [] {
      assert a + b == a;
    } else {
      ReceivedConcat(a, b[..|b| - 1], s);
      assert (a + b)[..|a + b| - 1] == a + b[..|b| - 1];
    }
  }

  lemma {:induction false} ReceivedNothing<S>(log: seq<Delivery<S, Message>>, s: S)
    requires forall d :: d in log ==> d.to != s
    ensures Received(log, s) == []
  {
    if log != [] {
      assert log[|log| - 1] in log;
      ReceivedNothing(log[..|log| - 1], s);
    }
  }

  predicate Once<S(==)>(list: seq<S>) {
    forall i, j :: 0 <= i < j < |list| ==> list[i] != list[j]
  }

  lemma {:induction false} ReceivedBroadcast<S>(list: seq<S>, m: Message, s: S)
    requires Once(list)
    ensures Received(Broadcast(list, m), s) == if s in list then [m] else []
  {
    if list != [] {
      var before := list[..|list| - 1];
      ReceivedBroadcast(before, m, s);
      assert Broadcast(list, m)[..|list| - 1] == Broadcast(before, m);
      assert list == before + [list[|list| - 1]];
    }
  }

  lemma {:induction false} StreamsOnce<S>(live: seq<Handler<S>>, user: int)
    requires Distinct(live)
    ensures Once(StreamsOf(live, user))
  {
    if live != [] {
      var before, last := live[..|live| - 1], live[|live| - 1];
      StreamsOnce(before, user);
      StreamsIn(before, user, last.stream);
    }
  }

  // ---- What every operation keeps ----

  function End<S>(f: Site<S>, s: S): nat
    requires s in f.visits
  {
    if f.visits[s].to.Some? then f.visits[s].to.value else |f.sent|
  }

  predicate SpanOk<S>(f: Site<S>, s: S)
    requires s in f.visits
  {
    f.visits[s].from <= End(f, s) <= |f.sent|
  }

  /** The messages reported as sent while stream `s` was registered. */
  function Span<S>(f: Site<S>, s: S): seq<Message>
    requires s in f.visits && SpanOk(f, s)
  {
    f.sent[f.visits[s].from..End(f, s)]
  }

  ghost predicate VisitsInv<S>(f: Site<S>) {
    && (forall h :: h in f.live ==>
          h.stream in f.visits && f.visits[h.stream].user == h.user && f.visits[h.stream].to.None?)
    && (forall s :: s in f.visits && f.visits[s].to.None? ==> Handler(f.visits[s].user, s) in f.live)
    && (forall s :: s in f.visits ==> SpanOk(f, s))
    && (forall d :: d in f.log ==> d.to in f.visits)
  }

  predicate Ascending(ms: seq<Message>) {
    forall i, j :: 0 <= i < j < |ms| ==> ms[i].id < ms[j].id
  }

  predicate SentInv(db: Db, sent: seq<Message>) {
    Ascending(sent) && forall m :: m in sent ==> m.chatId in db.chats && m.id < db.nextMessage
  }

  ghost predicate Got<S>(f: Site<S>, s: S)
    requires s in f.visits && SpanOk(f, s)
  {
    Received(f.log, s) == ForUser(f.w.st.db.chats, Span(f, s), f.visits[s].user)
  }

  ghost predicate GotInv<S>(f: Site<S>)
    requires VisitsInv(f)
  {
    forall s :: s in f.visits ==> Got(f, s)
  }

  ghost predicate SiteInv<S>(f: Site<S>) {
    && Reachable(f.w)
    && Consistent(f.lists, f.live)
    && SentInv(f.w.st.db, f.sent)
    && VisitsInv(f) && GotInv(f)
  }

  lemma OpenVisits<S>(f: Site<S>, user: int, s: S)
    requires VisitsInv(f) && s !in f.visits
    ensures VisitsInv(OpenStream(f, user, s))
  {
    var f' := OpenStream(f, user, s);
    forall t | t in f'.visits
      ensures SpanOk(f', t) && (f'.visits[t].to.None? ==> Handler(f'.visits[t].user, t) in f'.live)
    {
      assert t != s ==> SpanOk(f, t);
      assert f'.live[|f.live|] == Handler(user, s);
    }
  }

  lemma OpenGot<S>(f: Site<S>, user: int, s: S)
    requires VisitsInv(f) && GotInv(f) && s !in f.visits && VisitsInv(OpenStream(f, user, s))
    ensures GotInv(OpenStream(f, user, s))
  {
    var f' := OpenStream(f, user, s);
    ReceivedNothing(f.log, s);
    forall t | t in f'.visits
      ensures Got(f', t)
    {
      if t != s { assert SpanOk(f, t) && Got(f, t) && Span(f', t) == Span(f, t); }
    }
  }

  lemma OpenKeeps<S>(f: Site<S>, user: int, s: S)
    requires SiteInv(f)
    ensures SiteInv(OpenStream(f, user, s))
  {
    if s !in f.visits {
      RegisterKeeps(f.lists, f.live, user, s);
      OpenVisits(f, user, s);
      OpenGot(f, user, s);
    }
  }

  lemma WithoutAt<S>(live: seq<Handler<S>>, k: nat, i: nat)
    requires k < |live| && i < |live| - 1
    ensures |Without(live, k)| == |live| - 1 && Without(live, k)[i] == if i < k then live[i] else live[i + 1]
  {
  }

  lemma WithoutKeeps<S>(live: seq<Handler<S>>, k: nat, h: Handler<S>)
    requires k < |live| && h in live && h.stream != live[k].stream
    ensures h in Without(live, k)
  {
    var i :| 0 <= i < |live| && live[i] == h;
    WithoutAt(live, k, if i < k then i else i - 1);
  }

  lemma WithoutDrops<S>(live: seq<Handler<S>>, k: nat, h: Handler<S>)
    requires Distinct(live) && k < |live| && h in Without(live, k)
    ensures h in live && h.stream != live[k].stream
  {
    var i :| 0 <= i < |Without(live, k)| && Without(live, k)[i] == h;
    WithoutAt(live, k, i);
  }

  lemma WithoutMembers<S>(live: seq<Handler<S>>, k: nat)
    requires Distinct(live) && k < |live|
    ensures forall h :: h in Without(live, k) <==> h in live && h.stream != live[k].stream
  {
    forall h | h in live && h.stream != live[k].stream
      ensures h in Without(live, k)
    {
      WithoutKeeps(live, k, h);
    }
    forall h | h in Without(live, k)
      ensures h in live && h.stream != live[k].stream
    {
      WithoutDrops(live, k, h);
    }
  }

  lemma CloseVisits<S>(f: Site<S>, k: nat)
    requires VisitsInv(f) && GotInv(f) && Distinct(f.live) && k < |f.live|
    ensures VisitsInv(CloseStream(f, k)) && GotInv(CloseStream(f, k))
  {
    var f' := CloseStream(f, k);
    WithoutMembers(f.live, k);
    forall t | t in f'.visits
      ensures SpanOk(f', t) && Got(f', t)
    {
      assert SpanOk(f, t) && Got(f, t) && Span(f', t) == Span(f, t);
    }
  }

  lemma CloseKeeps<S>(f: Site<S>, k: nat)
    requires SiteInv(f)
    ensures SiteInv(CloseStream(f, k))
  {
    if k < |f.live| {
      var h := f.live[k];
      var l, rest := DeregisterKeeps(f.lists, f.live, k, h.user, h.stream);
      CloseVisits(f, k);
    }
  }

  /** A stream of either user gets the message once, every other stream nothing. */
  lemma PushReceived<S>(lists: Lists<S>, live: seq<Handler<S>>, req: Request, o: Outcome, s: S)
    requires Consistent(lists, live) && req.SendReq? && o.Sent? && o.user1 != o.user2
    ensures Received(Pushes(lists, req, o), s) ==
              if Handler(o.user1, s) in live || Handler(o.user2, s) in live then Reported(req, o) else []
  {
    var m := Message(o.id, req.chat, req.sender, req.text, o.at);
    var a, b := Broadcast(Of(lists, o.user1), m), Broadcast(Of(lists, o.user2), m);
    ListReceived(lists, live, o.user1, m, s);
    ListReceived(lists, live, o.user2, m, s);
    OneUser(live, o.user1, o.user2, s);
    ReceivedConcat(a, b, s);
  }

  lemma ListReceived<S>(lists: Lists<S>, live: seq<Handler<S>>, user: int, m: Message, s: S)
    requires Consistent(lists, live)
    ensures Received(Broadcast(Of(lists, user), m), s) == if Handler(user, s) in live then [m] else []
  {
    StreamsOnce(live, user);
    StreamsIn(live, user, s);
    ReceivedBroadcast(Of(lists, user), m, s);
  }

  lemma OneUser<S>(live: seq<Handler<S>>, user: int, other: int, s: S)
    requires Distinct(live) && user != other
    ensures !(Handler(user, s) in live && Handler(other, s) in live)
  {
  }

  /** A message is reported as sent with the two users of its chat. */
  lemma SentTo(w: World, c: int)
    requires Reachable(w) && Finished(w, c) && w.calls[c].req.SendReq? && w.calls[c].pc.outcome.Sent?
    ensures var req, o := w.calls[c].req, w.calls[c].pc.outcome;
            o.user1 < o.user2 && req.chat in w.st.db.chats && IsPair(w.st.db.chats[req.chat], o.user1, o.user2)
  {
    ReachableInv(w);
    assert CallInv(w.st, c, w.calls[c]);
  }

  lemma HandlerIsHis<S>(f: Site<S>, s: S, user: int)
    requires VisitsInv(f) && s in f.visits
    ensures Handler(user, s) in f.live <==> f.visits[s].to.None? && f.visits[s].user == user
  {
  }

  lemma GotMore<S>(
    log: seq<Delivery<S, Message>>, pushes: seq<Delivery<S, Message>>, chats: map<int, Chat>, chats': map<int, Chat>,
    span: seq<Message>, more: seq<Message>, user: int, s: S)
    requires Received(log, s) == ForUser(chats, span, user)
    requires forall id :: id in chats ==> id in chats' && chats'[id] == chats[id]
    requires forall m :: m in span ==> m.chatId in chats
    requires |more| <= 1 && Received(pushes, s) == if more != [] && Involves(chats', more[0], user) then more else []
    ensures Received(log + pushes, s) == ForUser(chats', span + more, user)
  {
    ReceivedConcat(log, pushes, s);
    ForUserStable(chats, chats', span, user);
    ForUserAtMostOne(chats', span, more, user);
  }

  lemma ForUserAtMostOne(chats: map<int, Chat>, ms: seq<Message>, more: seq<Message>, user: int)
    requires |more| <= 1
    ensures ForUser(chats, ms + more, user)
         == ForUser(chats, ms, user) + if more != [] && Involves(chats, more[0], user) then more else []
  {
    if more == [] {
      assert ms + more == ms;
    } else {
      assert more == [more[0]];
      ForUserMore(chats, ms, more[0], user);
    }
  }

  /** What the end of a call adds to the span of a stream. */
  function Heard<S>(f: Site<S>, s: S, told: seq<Message>): seq<Message>
    requires s in f.visits
  {
    if f.visits[s].to.None? then told else []
  }

  lemma SpanMore<S>(f: Site<S>, f': Site<S>, s: S, told: seq<Message>)
    requires s in f.visits && SpanOk(f, s) && f'.visits == f.visits && f'.sent == f.sent + told
    ensures SpanOk(f', s) && Span(f', s) == Span(f, s) + Heard(f, s, told)
  {
  }

  lemma PushHeard<S>(f: Site<S>, w': World, c: int, s: S)
    requires Consistent(f.lists, f.live) && VisitsInv(f) && s in f.visits && Reachable(w') && Finished(w', c)
    ensures var req, o := w'.calls[c].req, w'.calls[c].pc.outcome;
            var more := Heard(f, s, Reported(req, o));
            Received(Pushes(f.lists, req, o), s)
              == if more != [] && Involves(w'.st.db.chats, more[0], f.visits[s].user) then more else []
  {
    var req, o := w'.calls[c].req, w'.calls[c].pc.outcome;
    if req.SendReq? && o.Sent? {
      SentTo(w', c);
      PushReceived(f.lists, f.live, req, o, s);
      HandlerIsHis(f, s, o.user1);
      HandlerIsHis(f, s, o.user2);
    }
  }

  lemma SpanChats<S>(f: Site<S>, s: S)
    requires s in f.visits && SpanOk(f, s) && SentInv(f.w.st.db, f.sent)
    ensures forall m :: m in Span(f, s) ==> m.chatId in f.w.st.db.chats
  {
    assert forall m :: m in Span(f, s) ==> m in f.sent;
  }

  lemma ServeGot<S>(f: Site<S>, c: int, req: Request, env: Env, s: S)
    requires Consistent(f.lists, f.live) && VisitsInv(f) && s in f.visits && Got(f, s) && SentInv(f.w.st.db, f.sent)
    requires c !in f.w.calls && Reachable(f.w)
    ensures var f' := ServeCall(f, c, req, env); SpanOk(f', s) && Got(f', s)
  {
    var ms := CallStores(f.w, c, req, env);
    CallsFinish(f.w, c, req, env);
    var f' := ServeCall(f, c, req, env);
    var o := f'.w.calls[c].pc.outcome;
    var told := Reported(req, o);
    SpanMore(f, f', s, told);
    PushHeard(f, f'.w, c, s);
    SpanChats(f, s);
    GotMore(f.log, Pushes(f.lists, req, o), f.w.st.db.chats, f'.w.st.db.chats, Span(f, s), Heard(f, s, told),
            f.visits[s].user, s);
  }

  lemma PushesVisited<S>(f: Site<S>, req: Request, o: Outcome)
    requires Consistent(f.lists, f.live) && VisitsInv(f)
    ensures forall d :: d in Pushes(f.lists, req, o) ==> d.to in f.visits
  {
    if req.SendReq? && o.Sent? {
      ListVisited(f, o.user1);
      ListVisited(f, o.user2);
    }
  }

  lemma ListVisited<S>(f: Site<S>, user: int)
    requires Consistent(f.lists, f.live) && VisitsInv(f)
    ensures forall s :: s in Of(f.lists, user) ==> s in f.visits
  {
    forall s | s in Of(f.lists, user)
      ensures s in f.visits
    {
      StreamsIn(f.live, user, s);
    }
  }

  lemma ServeSent<S>(f: Site<S>, c: int, req: Request, env: Env)
    requires SentInv(f.w.st.db, f.sent) && Reachable(f.w) && c !in f.w.calls
    ensures var f' := ServeCall(f, c, req, env); SentInv(f'.w.st.db, f'.sent) && Reachable(f'.w)
  {
    var ms := CallStores(f.w, c, req, env);
    CallsFinish(f.w, c, req, env);
    var f' := ServeCall(f, c, req, env);
    var o := f'.w.calls[c].pc.outcome;
    if req.SendReq? && o.Sent? { SentTo(f'.w, c); }
    SentMore(f.w.st.db, f'.w.st.db, f.sent, Reported(req, o));
  }

  lemma SentMore(db: Db, db': Db, sent: seq<Message>, told: seq<Message>)
    requires SentInv(db, sent) && db.nextMessage <= db'.nextMessage && |told| <= 1
    requires forall id :: id in db.chats ==> id in db'.chats
    requires forall m :: m in told ==> db.nextMessage <= m.id < db'.nextMessage && m.chatId in db'.chats
    ensures SentInv(db', sent + told)
  {
    if told != [] { assert told[0] in told; }
    forall i, j | 0 <= i < j < |sent + told|
      ensures (sent + told)[i].id < (sent + told)[j].id
    {
      assert sent[i] in sent;
    }
  }

  lemma ServeVisits<S>(f: Site<S>, c: int, req: Request, env: Env)
    requires Consistent(f.lists, f.live) && VisitsInv(f)
    ensures VisitsInv(ServeCall(f, c, req, env))
  {
    var f' := ServeCall(f, c, req, env);
    if c !in f.w.calls && Finished(Completed(f.w, c, req, env), c) {
      var o := f'.w.calls[c].pc.outcome;
      PushesVisited(f, req, o);
      LongerVisits(f, f', Pushes(f.lists, req, o), Reported(req, o));
    }
  }

  lemma LongerVisits<S>(f: Site<S>, f': Site<S>, pushes: seq<Delivery<S, Message>>, told: seq<Message>)
    requires VisitsInv(f) && f'.visits == f.visits && f'.live == f.live
    requires f'.sent == f.sent + told && f'.log == f.log + pushes && forall d :: d in pushes ==> d.to in f.visits
    ensures VisitsInv(f')
  {
    forall s | s in f'.visits
      ensures SpanOk(f', s)
    {
      assert SpanOk(f, s);
    }
  }

  lemma ServeKeeps<S>(f: Site<S>, c: int, req: Request, env: Env)
    requires SiteInv(f)
    ensures SiteInv(ServeCall(f, c, req, env))
  {
    if c !in f.w.calls {
      var f' := ServeCall(f, c, req, env);
      ServeVisits(f, c, req, env);
      ServeSent(f, c, req, env);
      forall s | s in f'.visits
        ensures Got(f', s)
      {
        assert SpanOk(f, s) && Got(f, s);
        ServeGot(f, c, req, env, s);
      }
    }
  }

  lemma {:induction false} SiteKeeps<S>(ops: seq<Op<S>>)
    ensures SiteInv(DoAll(ops))
  {
    if ops == [] {
      assert Init() == Run(Init(), []);
    } else {
      var f := DoAll(ops[..|ops| - 1]);
      SiteKeeps(ops[..|ops| - 1]);
      match ops[|ops| - 1] {
        case Open(user, s) => OpenKeeps(f, user, s);
        case Close(k) => CloseKeeps(f, k);
        case Serve(c, req, env) => ServeKeeps(f, c, req, env);
      }
    }
  }

  /** In every run the hub holds, per user, exactly the live handlers' streams in registration order,
      and nothing at all once none is live. */
  lemma HubHoldsLiveStreams<S>(ops: seq<Op<S>>, user: int)
    ensures var f := DoAll(ops);
            && Of(f.lists, user) == StreamsOf(f.live, user)
            && (user in f.lists <==> exists h :: h in f.live && h.user == user)
            && (f.live == [] ==> forall u :: u !in f.lists)
  {
    SiteKeeps(ops);
    OnlyLiveUsers(DoAll(ops).lists, DoAll(ops).live, user);
  }

  // ---- Feeds and history agree ----

  lemma {:induction false} NoneTwice(chats: map<int, Chat>, ms: seq<Message>, user: int)
    requires Ascending(ms)
    ensures Ascending(ForUser(chats, ms, user))
    ensures forall m :: m in ForUser(chats, ms, user) ==> m in ms && Involves(chats, m, user)
  {
    if ms != [] {
      var before, m := ms[..|ms| - 1], ms[|ms| - 1];
      NoneTwice(chats, before, user);
      assert forall x :: x in before ==> x.id < m.id;
      AscendingMore(ForUser(chats, before, user), m);
    }
  }

  lemma AscendingMore(ms: seq<Message>, m: Message)
    requires Ascending(ms) && forall x :: x in ms ==> x.id < m.id
    ensures Ascending(ms + [m])
  {
  }

  /** In every run, whatever fails: what a stream has received is, in order and once each, the messages
      reported as sent in its user's chats while it was registered, and nothing else. */
  lemma FeedsAreExact<S>(ops: seq<Op<S>>, s: S)
    ensures var f := DoAll(ops);
            if s !in f.visits then Received(f.log, s) == []
            else
              && SpanOk(f, s)
              && Received(f.log, s) == ForUser(f.w.st.db.chats, Span(f, s), f.visits[s].user)
              && Ascending(Received(f.log, s))
              && forall m :: m in Received(f.log, s) ==> Involves(f.w.st.db.chats, m, f.visits[s].user)
  {
    var f := DoAll(ops);
    SiteKeeps(ops);
    if s in f.visits {
      assert SpanOk(f, s) && Got(f, s);
      NoneTwice(f.w.st.db.chats, Span(f, s), f.visits[s].user);
    } else {
      ReceivedNothing(f.log, s);
    }
  }

  /** No store access of any call in `ops` fails. */
  ghost predicate Calm<S>(ops: seq<Op<S>>) {
    forall i :: 0 <= i < |ops| && ops[i].Serve? ==> NoFaults(ops[i].env)
  }

  /** Without failures the messages reported as sent are the stored history, so the feeds are the
      history; and the counters were last reset by the reads that succeeded. */
  lemma {:induction false} CalmRunsReportAll<S>(ops: seq<Op<S>>)
    requires Calm(ops)
    ensures var f := DoAll(ops); f.sent == f.w.st.db.messages && f.read == f.w.st.resets
  {
    if ops != [] {
      var before, last := ops[..|ops| - 1], ops[|ops| - 1];
      var f := DoAll(before);
      assert forall i :: 0 <= i < |before| ==> before[i] == ops[i];
      CalmRunsReportAll(before);
      SiteReachable(before);
      if last.Serve? { CalmServe(f, last.c, last.req, last.env); }
    }
  }

  lemma SiteReachable<S>(ops: seq<Op<S>>)
    ensures Reachable(DoAll(ops).w)
  {
    SiteKeeps(ops);
  }

  lemma CalmServe<S>(f: Site<S>, c: int, req: Request, env: Env)
    requires Reachable(f.w) && NoFaults(env) && f.sent == f.w.st.db.messages && f.read == f.w.st.resets
    ensures var f' := ServeCall(f, c, req, env); f'.sent == f'.w.st.db.messages && f'.read == f'.w.st.resets
  {
    if c !in f.w.calls {
      var ms := CallStores(f.w, c, req, env);
      CallResets(f.w, c, req, env);
    }
  }

  /** Feed agrees with history: without failures a stream has received exactly the rows inserted in its
      user's chats while it was registered, in insertion order. */
  lemma CalmFeedsAreHistory<S>(ops: seq<Op<S>>, s: S)
    requires Calm(ops)
    ensures var f := DoAll(ops);
            s in f.visits ==>
              && f.visits[s].from <= End(f, s) <= |f.w.st.db.messages|
              && Received(f.log, s)
                 == ForUser(f.w.st.db.chats, f.w.st.db.messages[f.visits[s].from..End(f, s)], f.visits[s].user)
  {
    FeedsAreExact(ops, s);
    CalmRunsReportAll(ops);
  }

  /** Without failures an unread counter is the number of the other user's messages since the user last
      read a page of the chat. */
  lemma CalmUnreadSinceLastRead<S>(ops: seq<Op<S>>, chat: int, user: int)
    requires Calm(ops)
    ensures var f := DoAll(ops);
            (chat, user) in f.w.st.db.members ==>
              var n := if (chat, user) in f.read then f.read[(chat, user)] else 0;
              n <= |f.sent| && f.w.st.db.members[(chat, user)] == Unseen(f.sent[n..], chat, user)
  {
    SiteKeeps(ops);
    CalmRunsReportAll(ops);
    var f := DoAll(ops);
    ReachableInv(f.w);
    assert (chat, user) in f.w.st.db.members ==> CounterInv(f.w.st, chat, user);
  }
}
