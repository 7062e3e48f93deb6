/** Lifetimes: when the tokens of an issued pair expire, and which tokens can still be exchanged. */
module AuthExpiry {
  import opened Common
  import opened SessionTable
  import opened AuthMachine
  import opened AuthTable
  import Lineage = AuthLineage

  /** `at` is a moment of a call that began at `start`. */
  predicate During(start: int, at: int, now: int) {
    start <= at <= now
  }

  /** Session `p` had not expired when the call began. */
  predicate Unexpired(st: State, start: int, p: int) {
    p in st.table && start <= st.table[p].refreshExpiresAt
  }

  predicate FromUnexpired(st: State, start: int, from: Option<int>) {
    from.Some? ==> Unexpired(st, start, from.value)
  }

  predicate Copied(st: State, s: Session) {
    s.id in st.table && st.table[s.id].refreshExpiresAt == s.refreshExpiresAt
  }

  predicate MadeFromUnexpired(st: State, start: int, id: int) {
    id in st.origin ==> Unexpired(st, start, st.origin[id])
  }

  predicate CallInv(cfg: Config, st: State, call: Call) {
    && call.startedAt <= st.now
    && match call.pc
       case RefreshCheck(s) => Copied(st, s)
       case RefreshRevoke(s) => Copied(st, s) && call.startedAt <= s.refreshExpiresAt
       case RefreshEvict(s) => Copied(st, s) && call.startedAt <= s.refreshExpiresAt
       case MakeToken(_, _, from) => FromUnexpired(st, call.startedAt, from)
       case MakeExpiry(_, _, from, _) => FromUnexpired(st, call.startedAt, from)
       case Insert(_, _, from, _, expiry) =>
         FromUnexpired(st, call.startedAt, from) && During(call.startedAt, expiry - cfg.refreshTtl, st.now)
       case MakeAccess(_, _, id, _, expiry) =>
         && id in st.table && MadeFromUnexpired(st, call.startedAt, id)
         && During(call.startedAt, expiry - cfg.refreshTtl, st.now)
       case Done(Issued(pair)) =>
         && pair.access.sessionId in st.table && MadeFromUnexpired(st, call.startedAt, pair.access.sessionId)
         && During(call.startedAt, pair.refreshExpiresAt - cfg.refreshTtl, st.now)
         && During(call.startedAt, pair.access.expiresAt - cfg.accessTtl, st.now)
       case _ => true
  }

  /** What steps do to what these facts depend on. */
  predicate Kept(s: State, s': State) {
    && s.now <= s'.now
    && (forall id :: id in s.table ==> id in s'.table && s'.table[id].refreshExpiresAt == s.table[id].refreshExpiresAt)
    && (forall id :: id in s.table ==> (id in s'.origin <==> id in s.origin))
    && (forall id :: id in s.table && id in s.origin ==> s'.origin[id] == s.origin[id])
  }

  lemma CallKept(cfg: Config, s: State, s': State, call: Call)
    requires CallInv(cfg, s, call) && Kept(s, s')
    ensures CallInv(cfg, s', call)
  {
  }

  lemma PcMoves(cfg: Config, st: State, call: Call, ch: Choice)
    requires CallInv(cfg, st, call) && !call.pc.Insert?
    ensures CallInv(cfg, st, call.(pc := Decide(cfg, st, call, ch).pc))
  {
  }

  lemma InsertMoves(cfg: Config, st: State, c: int, call: Call, ch: Choice)
    requires CallInv(cfg, st, call) && call.pc.Insert?
    requires st.nextId + ch.gap !in st.origin && st.nextId + ch.gap !in st.table
    ensures var m := Decide(cfg, st, call, ch);
            CallInv(cfg, Apply(st, c, m.effect), call.(pc := m.pc))
  {
  }

  lemma EffectKept(st: State, c: int, e: Effect)
    requires e.InsertRow? ==> e.id !in st.table
    ensures Kept(st, Apply(st, c, e))
  {
  }

  lemma DecideNumbers(cfg: Config, st: State, call: Call, ch: Choice)
    ensures var e := Decide(cfg, st, call, ch).effect; e.InsertRow? ==> e.id >= st.nextId
  {
  }

  lemma CallMoves(cfg: Config, st: State, c: int, call: Call, ch: Choice)
    requires CallInv(cfg, st, call)
    requires forall id :: id in st.table || id in st.origin ==> id < st.nextId
    ensures var m := Decide(cfg, st, call, ch);
            CallInv(cfg, Apply(st, c, m.effect), call.(pc := m.pc)) && Kept(st, Apply(st, c, m.effect))
  {
    var m := Decide(cfg, st, call, ch);
    DecideNumbers(cfg, st, call, ch);
    EffectKept(st, c, m.effect);
    if call.pc.Insert? {
      InsertMoves(cfg, st, c, call, ch);
    } else {
      PcMoves(cfg, st, call, ch);
      CallKept(cfg, st, Apply(st, c, m.effect), call.(pc := m.pc));
    }
  }

  /** A row was last written no longer than one lifetime before it expires. */
  predicate Aged(cfg: Config, st: State) {
    forall id :: id in st.table ==>
      && st.table[id].updatedAt <= st.now
      && st.table[id].refreshExpiresAt <= st.table[id].updatedAt + cfg.refreshTtl
  }

  lemma DecideAged(cfg: Config, st: State, call: Call, ch: Choice)
    requires CallInv(cfg, st, call)
    ensures var e := Decide(cfg, st, call, ch).effect;
            e.InsertRow? ==> e.row.updatedAt == st.now && e.row.refreshExpiresAt <= st.now + cfg.refreshTtl
  {
  }

  lemma AgedKept(cfg: Config, st: State, c: int, e: Effect)
    requires Aged(cfg, st)
    requires e.InsertRow? ==> e.row.updatedAt == st.now && e.row.refreshExpiresAt <= st.now + cfg.refreshTtl
    ensures Aged(cfg, Apply(st, c, e))
  {
  }

  ghost predicate Inv(w: World) {
    && (forall id :: id in w.st.table || id in w.st.origin ==> id < w.st.nextId)
    && Aged(w.cfg, w.st)
    && forall c :: c in w.calls ==> CallInv(w.cfg, w.st, w.calls[c])
  }

  lemma NumbersKept(st: State, c: int, e: Effect)
    requires forall id :: id in st.table || id in st.origin ==> id < st.nextId
    requires e.InsertRow? ==> e.id >= st.nextId
    ensures var st' := Apply(st, c, e); forall id :: id in st'.table || id in st'.origin ==> id < st'.nextId
  {
  }

  lemma ElapseKeeps(w: World, dt: nat)
    requires Inv(w)
    ensures Inv(Elapse(w, dt))
  {
    forall c | c in w.calls
      ensures CallInv(w.cfg, Elapse(w, dt).st, w.calls[c])
    {
      CallKept(w.cfg, w.st, Elapse(w, dt).st, w.calls[c]);
    }
  }

  lemma ActKeeps(w: World, c: int, ch: Choice)
    requires Inv(w) && c in w.calls
    ensures Inv(Act(w, c, ch))
  {
    var w' := Act(w, c, ch);
    CallMoves(w.cfg, w.st, c, w.calls[c], ch);
    DecideNumbers(w.cfg, w.st, w.calls[c], ch);
    NumbersKept(w.st, c, Decide(w.cfg, w.st, w.calls[c], ch).effect);
    DecideAged(w.cfg, w.st, w.calls[c], ch);
    AgedKept(w.cfg, w.st, c, Decide(w.cfg, w.st, w.calls[c], ch).effect);
    forall d | d in w'.calls
      ensures CallInv(w'.cfg, w'.st, w'.calls[d])
    {
      if d != c { CallKept(w.cfg, w.st, w'.st, w.calls[d]); }
    }
  }

  lemma StepKeeps(w: World, s: Step)
    requires Inv(w)
    ensures Inv(Next(w, s))
  {
    match s
    case Tick(dt) => ElapseKeeps(w, dt);
    case Expel(id) =>
      forall c | c in w.calls
        ensures CallInv(w.cfg, Next(w, s).st, w.calls[c])
      {
        CallKept(w.cfg, w.st, Next(w, s).st, w.calls[c]);
      }
    case Start(c, req) =>
    case Go(c, ch) =>
      if Enabled(w, s) {
        ElapseKeeps(w, ch.dt);
        ActKeeps(Elapse(w, ch.dt), c, ch);
      }
  }

  lemma {:induction false} RunKeeps(w: World, steps: seq<Step>)
    requires Inv(w)
    ensures Inv(Run(w, steps))
    ensures Run(w, steps).cfg == w.cfg
  {
    if steps != [] {
      var before := steps[..|steps| - 1];
      RunKeeps(w, before);
      RunLast(w, steps);
      StepKeeps(Run(w, before), steps[|steps| - 1]);
    }
  }

  /** In every interleaving the tokens of an issued pair expire one refresh lifetime and one access
      lifetime after some moment of the call that issued them. */
  lemma IssuedPairsExpireInTime(cfg: Config, steps: seq<Step>, c: int)
    ensures var w := Run(Init(cfg), steps);
            c in w.calls && w.calls[c].pc.Done? && w.calls[c].pc.outcome.Issued? ==>
              var pair := w.calls[c].pc.outcome.pair;
              && During(w.calls[c].startedAt, pair.refreshExpiresAt - cfg.refreshTtl, w.st.now)
              && During(w.calls[c].startedAt, pair.access.expiresAt - cfg.accessTtl, w.st.now)
  {
    RunKeeps(Init(cfg), steps);
    var w := Run(Init(cfg), steps);
    assert c in w.calls ==> CallInv(w.cfg, w.st, w.calls[c]);
  }

  /** In every interleaving a rotation succeeds only for a token that had not expired when it began. */
  lemma ExpiredTokensAreRejected(cfg: Config, steps: seq<Step>, c: int, p: int)
    ensures var w := Run(Init(cfg), steps);
            c in w.calls && p in w.st.table && w.calls[c].req == RefreshReq(w.st.table[p].token)
            && w.st.table[p].refreshExpiresAt < w.calls[c].startedAt && w.calls[c].pc.Done? ==>
              w.calls[c].pc.outcome.Failed?
  {
    var w := Run(Init(cfg), steps);
    CallHolds(cfg, steps, c);
    if c in w.calls && p in w.st.table && w.calls[c].req == RefreshReq(w.st.table[p].token) && w.calls[c].pc.Done? {
      if w.calls[c].pc.outcome.Issued? {
        Lineage.RunKeeps(Init(cfg), steps);
        OriginIs(w, c, p, w.calls[c].pc.outcome.pair.access.sessionId);
      }
    }
  }

  lemma CallHolds(cfg: Config, steps: seq<Step>, c: int)
    ensures var w := Run(Init(cfg), steps);
            c in w.calls ==> CallInv(cfg, w.st, w.calls[c]) && Lineage.CallInv(w.st, c, w.calls[c])
  {
    RunKeeps(Init(cfg), steps);
    Lineage.RunKeeps(Init(cfg), steps);
  }

  lemma OriginIs(w: World, c: int, p: int, id: int)
    requires Lineage.Inv(w) && w.st.Made(id, c) && c in w.calls && p in w.st.table
    requires w.calls[c].req == RefreshReq(w.st.table[p].token)
    ensures id in w.st.origin && w.st.origin[id] == p
  {
    assert Lineage.Recorded(w.st) && Lineage.OriginsInv(w) && TokensUnique(w.st.table);
    assert id in w.st.creator && id in w.st.table;
    assert Lineage.OriginInv(w.st, id, w.calls[c].req);
  }
}
