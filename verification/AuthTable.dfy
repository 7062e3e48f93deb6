/** What every step keeps of the session table: fresh ids, unique tokens, rows that change only by
    being revoked. */
module AuthTable {
  import opened Common
  import opened SessionTable
  import opened AuthMachine

  /** The token a call has drawn but not stored yet. */
  function Pending(pc: Pc): Option<Token> {
    match pc
    case MakeExpiry(_, _, _, token) => Some(token)
    case Insert(_, _, _, token, _) => Some(token)
    case _ => None
  }

  predicate SamePending(a: Pc, b: Pc) {
    Pending(a).Some? && Pending(a) == Pending(b)
  }

  ghost predicate TableInv(w: World) {
    RowsInv(w.st) && PendingInv(w)
  }

  ghost predicate RowsInv(st: State) {
    && TokensUnique(st.table)
    && forall id :: id in st.table ==>
         && id < st.nextId
         && st.table[id].token in st.drawn
         && (st.table[id].status.Revoked? ==> st.table[id].updatedAt <= st.now)
  }

  ghost predicate PendingInv(w: World) {
    && (forall c :: c in w.calls && Pending(w.calls[c].pc).Some? ==>
          PendingFresh(w.st, Pending(w.calls[c].pc).value))
    && (forall c, d :: c in w.calls && d in w.calls && SamePending(w.calls[c].pc, w.calls[d].pc) ==> c == d)
  }

  ghost predicate PendingFresh(st: State, token: Token) {
    token in st.drawn && forall id :: id in st.table ==> st.table[id].token != token
  }

  /** The columns no statement ever updates. */
  predicate SameIdentity(a: Row, b: Row) {
    a.userId == b.userId && a.appId == b.appId && a.token == b.token && a.refreshExpiresAt == b.refreshExpiresAt
  }

  /** `s'` comes after `s`: rows stay, and change only from active to revoked. */
  ghost predicate Grows(s: State, s': State) {
    && s.now <= s'.now
    && forall id :: id in s.table ==>
         && id in s'.table
         && SameIdentity(s.table[id], s'.table[id])
         && (s'.table[id] == s.table[id]
             || (s.table[id].status.Active? && s'.table[id].status.Revoked?
                 && s.now <= s'.table[id].updatedAt <= s'.now))
  }

  /** A new row needs an id above every other, and a token the call alone has drawn. */
  ghost predicate Admissible(st: State, pc: Pc, e: Effect, pc': Pc) {
    match e
    case InsertRow(id, row, _) =>
      id >= st.nextId && row.status.Active? && Pending(pc) == Some(row.token) && Pending(pc').None?
    case Draw(token) => Pending(pc') == Some(token) && token !in st.drawn
    case _ => Pending(pc') == Pending(pc) || Pending(pc').None?
  }

  lemma DecideAdmissible(cfg: Config, st: State, call: Call, ch: Choice)
    requires !Repeats(st, call.pc, ch)
    ensures var m := Decide(cfg, st, call, ch); Admissible(st, call.pc, m.effect, m.pc)
  {
  }

  lemma ApplyGrows(st: State, c: int, e: Effect)
    requires e.InsertRow? ==> e.id !in st.table
    ensures Grows(st, Apply(st, c, e))
  {
  }

  lemma NowStays(st: State, c: int, e: Effect)
    ensures Apply(st, c, e).now == st.now
  {
  }

  lemma StepGrows(w: World, s: Step)
    requires TableInv(w)
    ensures Grows(w.st, Next(w, s).st)
  {
    if s.Go? && Enabled(w, s) {
      var now := Elapse(w, s.choice.dt);
      DecideAdmissible(w.cfg, now.st, w.calls[s.c], s.choice);
      ApplyGrows(now.st, s.c, Decide(w.cfg, now.st, w.calls[s.c], s.choice).effect);
    }
  }

  lemma ActRows(w: World, c: int, m: Move)
    requires TableInv(w) && c in w.calls
    requires Admissible(w.st, w.calls[c].pc, m.effect, m.pc)
    ensures RowsInv(Apply(w.st, c, m.effect))
  {
    match m.effect
    case InsertRow(_, row, _) => assert PendingFresh(w.st, row.token);
    case _ =>
  }

  lemma ActPending(w: World, c: int, m: Move)
    requires TableInv(w) && c in w.calls
    requires Admissible(w.st, w.calls[c].pc, m.effect, m.pc)
    ensures PendingInv(World(w.cfg, Apply(w.st, c, m.effect), w.calls[c := w.calls[c].(pc := m.pc)]))
  {
  }

  lemma StepTable(w: World, s: Step)
    requires TableInv(w)
    ensures TableInv(Next(w, s))
  {
    if s.Go? && Enabled(w, s) {
      var now := Elapse(w, s.choice.dt);
      assert TableInv(now);
      DecideAdmissible(w.cfg, now.st, w.calls[s.c], s.choice);
      var m := Decide(w.cfg, now.st, w.calls[s.c], s.choice);
      ActRows(now, s.c, m);
      ActPending(now, s.c, m);
    }
  }

  lemma {:induction false} RunTable(w: World, steps: seq<Step>)
    requires TableInv(w)
    ensures TableInv(Run(w, steps))
    ensures Grows(w.st, Run(w, steps).st)
  {
    if steps != [] {
      var before := steps[..|steps| - 1];
      RunTable(w, before);
      RunLast(w, steps);
      StepTable(Run(w, before), steps[|steps| - 1]);
      StepGrows(Run(w, before), steps[|steps| - 1]);
    }
  }

  ghost predicate Reachable(w: World) {
    exists steps :: w == Run(Init(w.cfg), steps)
  }

  lemma ReachableNext(w: World, s: Step)
    requires Reachable(w)
    ensures Reachable(Next(w, s))
  {
    var steps :| w == Run(Init(w.cfg), steps);
    assert (steps + [s])[..|steps|] == steps;
    RunLast(Init(w.cfg), steps + [s]);
    assert Next(w, s).cfg == w.cfg;
  }

  lemma ReachableTable(w: World)
    requires Reachable(w)
    ensures TableInv(w)
  {
    var steps :| w == Run(Init(w.cfg), steps);
    RunTable(Init(w.cfg), steps);
  }

  /** The token a call is about to insert is in no row yet. */
  lemma PendingIsFresh(w: World, c: int, token: Token)
    requires Reachable(w) && c in w.calls && Pending(w.calls[c].pc) == Some(token)
    ensures PendingFresh(w.st, token)
  {
    ReachableTable(w);
  }
}
