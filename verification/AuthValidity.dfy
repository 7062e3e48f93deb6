/** What an answer of `ValidateSession` is worth when calls interleave and any access may fail. */
module AuthValidity {
  import opened Common
  import opened SessionTable
  import opened SessionCache
  import opened AuthMachine
  import opened AuthTable

  /** `s` is a copy of its row as it stood at time `at`: the row may have been revoked since. */
  ghost predicate Seen(st: State, s: Session, at: int) {
    && s.id in st.table
    && at <= st.now
    && s == Read(st.table, s.id).(status := s.status)
    && (s.status.Revoked? ==> st.table[s.id].status.Revoked?)
    && (s.status.Active? && st.table[s.id].status.Revoked? ==> at <= st.table[s.id].updatedAt)
  }

  ghost predicate CopyInv(st: State, id: int) {
    && id in st.cache && id in st.stamps
    && st.cache[id].session.id == id
    && Seen(st, st.cache[id].session, st.stamps[id].readAt)
    && st.stamps[id].readAt <= st.stamps[id].writtenAt <= st.now
    && st.cache[id].deadline <= st.stamps[id].writtenAt + DAY
  }

  ghost predicate CopiesInv(st: State) {
    forall id :: id in st.cache ==> CopyInv(st, id)
  }

  /** A source used by a call that started at `start` and looked at it at `at`. */
  predicate Timely(source: Source, start: int, at: int) {
    match source
    case FromTable(readAt) => start <= readAt <= at
    case FromCache(readAt, writtenAt, gotAt) =>
      start <= gotAt <= at && readAt <= writtenAt <= gotAt < writtenAt + DAY
  }

  /** The two halves of soundness, for an answer given at time `at`. */
  ghost predicate Justified(st: State, active: bool, id: int, source: Source, at: int) {
    && id in st.table
    && if active
       then at < st.table[id].refreshExpiresAt
            && (st.table[id].status.Revoked? ==> source.readAt <= st.table[id].updatedAt)
       else st.table[id].refreshExpiresAt <= at
            || (st.table[id].status.Revoked? && st.table[id].updatedAt <= at)
  }

  ghost predicate CallInv(st: State, call: Call) {
    && call.startedAt <= st.now
    && match call.pc
       case CacheRead => call.req.ValidateReq?
       case TableRead => call.req.ValidateReq?
       case CacheTtl(s, readAt) =>
         call.req == ValidateReq(s.id) && Seen(st, s, readAt) && call.startedAt <= readAt
       case CacheWrite(s, readAt, ttl) =>
         call.req == ValidateReq(s.id) && Seen(st, s, readAt) && call.startedAt <= readAt && ttl <= DAY
       case Check(s, source) =>
         call.req == ValidateReq(s.id) && Seen(st, s, source.readAt) && Timely(source, call.startedAt, st.now)
       case Done(Answer(active, id, source, at)) =>
         && call.req == ValidateReq(id) && at <= st.now
         && Timely(source, call.startedAt, at) && Justified(st, active, id, source, at)
       case _ => true
  }

  ghost predicate CallsInv(st: State, calls: map<int, Call>) {
    forall c :: c in calls ==> CallInv(st, calls[c])
  }

  ghost predicate Inv(w: World) {
    TableInv(w) && CopiesInv(w.st) && CallsInv(w.st, w.calls)
  }

  lemma CallStable(s: State, s': State, call: Call)
    requires RowsInv(s) && CallInv(s, call) && Grows(s, s')
    ensures CallInv(s', call)
  {
  }

  lemma CallsStable(s: State, s': State, calls: map<int, Call>)
    requires RowsInv(s) && CallsInv(s, calls) && Grows(s, s')
    ensures CallsInv(s', calls)
  {
    forall c | c in calls ensures CallInv(s', calls[c]) { CallStable(s, s', calls[c]); }
  }

  lemma CopyStable(s: State, s': State, id: int)
    requires RowsInv(s) && CopyInv(s, id) && Grows(s, s')
    requires id in s'.cache && s'.cache[id] == s.cache[id] && id in s'.stamps && s'.stamps[id] == s.stamps[id]
    ensures CopyInv(s', id)
  {
  }

  /** Only faithful copies are stored. */
  ghost predicate StoresCopy(st: State, e: Effect) {
    e.Store? ==> e.session.id == e.id && e.ttl <= DAY && Seen(st, e.session, e.readAt)
  }

  lemma DecideKeeps(cfg: Config, st: State, call: Call, ch: Choice)
    requires RowsInv(st) && CallInv(st, call) && CopiesInv(st)
    ensures var m := Decide(cfg, st, call, ch); CallInv(st, call.(pc := m.pc)) && StoresCopy(st, m.effect)
  {
  }

  lemma ApplyKeeps(st: State, c: int, e: Effect)
    requires RowsInv(st) && CopiesInv(st) && StoresCopy(st, e)
    requires e.InsertRow? ==> e.id !in st.table
    ensures CopiesInv(Apply(st, c, e))
  {
    var st' := Apply(st, c, e);
    ApplyGrows(st, c, e);
    forall id | id in st'.cache
      ensures CopyInv(st', id)
    {
      if !e.Store? || id != e.id {
        CopyStable(st, st', id);
      }
    }
  }

  lemma ElapseKeeps(w: World, dt: nat)
    requires Inv(w)
    ensures Inv(Elapse(w, dt))
  {
    var st' := Elapse(w, dt).st;
    CallsStable(w.st, st', w.calls);
    forall id | id in st'.cache ensures CopyInv(st', id) { CopyStable(w.st, st', id); }
  }

  lemma ActKeeps(w: World, c: int, ch: Choice)
    requires Inv(w) && c in w.calls && !Repeats(w.st, w.calls[c].pc, ch)
    ensures CopiesInv(Act(w, c, ch).st) && CallsInv(Act(w, c, ch).st, Act(w, c, ch).calls)
  {
    var m := Decide(w.cfg, w.st, w.calls[c], ch);
    DecideAdmissible(w.cfg, w.st, w.calls[c], ch);
    DecideKeeps(w.cfg, w.st, w.calls[c], ch);
    ApplyKeeps(w.st, c, m.effect);
    ApplyGrows(w.st, c, m.effect);
    CallsStable(w.st, Apply(w.st, c, m.effect), w.calls[c := w.calls[c].(pc := m.pc)]);
  }

  lemma StepKeeps(w: World, s: Step)
    requires Inv(w)
    ensures Inv(Next(w, s))
  {
    StepTable(w, s);
    match s
    case Tick(dt) => ElapseKeeps(w, dt);
    case Expel(id) =>
      ApplyKeeps(w.st, 0, Evict(id));
      CallsStable(w.st, Next(w, s).st, w.calls);
    case Start(_, _) =>
    case Go(c, ch) =>
      if Enabled(w, s) {
        ElapseKeeps(w, ch.dt);
        ActKeeps(Elapse(w, ch.dt), c, ch);
      }
  }

  lemma {:induction false} RunKeeps(w: World, steps: seq<Step>)
    requires Inv(w)
    ensures Inv(Run(w, steps))
  {
    if steps != [] {
      var before := steps[..|steps| - 1];
      RunKeeps(w, before);
      RunLast(w, steps);
      StepKeeps(Run(w, before), steps[|steps| - 1]);
    }
  }

  /** In every interleaving, whatever fails: an answer `false` is right when it is given, and an
      answer `true` comes before the expiry, from a copy read while the row was still active; a
      copy taken from the cache had been there for less than a day. */
  lemma AnswersAreJustified(cfg: Config, steps: seq<Step>, c: int)
    ensures var w := Run(Init(cfg), steps);
            c in w.calls && w.calls[c].pc.Done? && w.calls[c].pc.outcome.Answer? ==>
              var a := w.calls[c].pc.outcome;
              && w.calls[c].req == ValidateReq(a.id)
              && Justified(w.st, a.active, a.id, a.source, a.at)
              && Timely(a.source, w.calls[c].startedAt, a.at)
  {
    RunKeeps(Init(cfg), steps);
    var w := Run(Init(cfg), steps);
    assert c in w.calls ==> CallInv(w.st, w.calls[c]);
  }

  /** No call that is still running has been running for longer than `D`. */
  ghost predicate Prompt(w: World, D: int) {
    forall c :: c in w.calls && !w.calls[c].pc.Done? ==> w.st.now - w.calls[c].startedAt <= D
  }

  ghost predicate PromptRun(w: World, steps: seq<Step>, D: int) {
    && Prompt(Run(w, steps), D)
    && (steps != [] ==> PromptRun(w, steps[..|steps| - 1], D))
  }

  predicate QuicklyStored(source: Source, D: int) {
    source.FromCache? ==> source.writtenAt - source.readAt <= D
  }

  predicate CallQuick(pc: Pc, D: int) {
    match pc
    case Check(_, source) => QuicklyStored(source, D)
    case Done(Answer(_, _, source, _)) => QuicklyStored(source, D)
    case _ => true
  }

  ghost predicate CopiesQuick(st: State, D: int) {
    forall id :: id in st.cache && id in st.stamps ==> st.stamps[id].writtenAt - st.stamps[id].readAt <= D
  }

  /** Copies reach the cache within `D` of being read. */
  ghost predicate QuickInv(w: World, D: int) {
    CopiesQuick(w.st, D) && forall c :: c in w.calls ==> CallQuick(w.calls[c].pc, D)
  }

  lemma DecideQuick(cfg: Config, st: State, call: Call, ch: Choice, D: int)
    requires CopiesInv(st) && CallInv(st, call) && CopiesQuick(st, D) && CallQuick(call.pc, D)
    ensures var m := Decide(cfg, st, call, ch);
            CallQuick(m.pc, D) && (m.effect.Store? ==> !m.pc.Done? && call.startedAt <= m.effect.readAt)
  {
  }

  lemma ApplyQuick(st: State, c: int, e: Effect, D: int)
    requires CopiesQuick(st, D)
    requires e.Store? ==> st.now - e.readAt <= D
    ensures Apply(st, c, e).now == st.now && CopiesQuick(Apply(st, c, e), D)
  {
  }

  lemma StepQuick(w: World, s: Step, D: int)
    requires Inv(w) && QuickInv(w, D) && Prompt(Next(w, s), D)
    ensures QuickInv(Next(w, s), D)
  {
    if s.Go? && Enabled(w, s) {
      var now := Elapse(w, s.choice.dt);
      ElapseKeeps(w, s.choice.dt);
      var m := Decide(w.cfg, now.st, w.calls[s.c], s.choice);
      DecideQuick(w.cfg, now.st, w.calls[s.c], s.choice, D);
      assert m.effect.Store? ==> now.st.now - m.effect.readAt <= D by {
        assert Next(w, s).calls[s.c] == w.calls[s.c].(pc := m.pc);
      }
      ApplyQuick(now.st, s.c, m.effect, D);
    }
  }

  lemma {:induction false} RunQuick(w: World, steps: seq<Step>, D: int)
    requires Inv(w) && QuickInv(w, D) && PromptRun(w, steps, D)
    ensures QuickInv(Run(w, steps), D)
  {
    if steps != [] {
      var before := steps[..|steps| - 1];
      RunKeeps(w, before);
      RunQuick(w, before, D);
      RunLast(w, steps);
      StepQuick(Run(w, before), steps[|steps| - 1], D);
    }
  }

  /** Revocation bites. If calls last at most `D`, then a session revoked at time `r` is answered
      `true` only by calls that started before `r + D + 24h`, and only before its expiry. */
  lemma RevocationBites(cfg: Config, steps: seq<Step>, D: nat, c: int)
    requires PromptRun(Init(cfg), steps, D)
    ensures var w := Run(Init(cfg), steps);
            c in w.calls && w.calls[c].pc.Done? && w.calls[c].pc.outcome.Answer? && w.calls[c].pc.outcome.active ==>
              var a := w.calls[c].pc.outcome;
              && a.id in w.st.table
              && a.at < w.st.table[a.id].refreshExpiresAt
              && (w.st.table[a.id].status.Revoked? ==>
                    w.calls[c].startedAt < w.st.table[a.id].updatedAt + D + DAY)
  {
    RunKeeps(Init(cfg), steps);
    RunQuick(Init(cfg), steps, D);
    var w := Run(Init(cfg), steps);
    if c in w.calls {
      assert CallInv(w.st, w.calls[c]) && CallQuick(w.calls[c].pc, D);
    }
  }
}
