/** What revocation stops, and how many sessions can replace one. */
module AuthRotation {
  import opened Common
  import opened SessionTable
  import opened AuthMachine
  import opened AuthTable
  import Lineage = AuthLineage

  /** A revoked row stays revoked, with the time of its revocation, whatever runs afterwards. */
  lemma RevokedForever(cfg: Config, before: seq<Step>, after: seq<Step>, id: int)
    ensures var w := Run(Init(cfg), before);
            id in w.st.table && w.st.table[id].status.Revoked? ==>
              var w' := Run(w, after);
              id in w'.st.table && w'.st.table[id] == w.st.table[id]
  {
    RunTable(Init(cfg), before);
    RunTable(Run(Init(cfg), before), after);
  }

  /** The rotations of session `p` that have already looked it up. */
  ghost function Lookups(w: World, p: int): set<int>
    requires p in w.st.table
  {
    set c | c in w.calls && w.calls[c].req == RefreshReq(w.st.table[p].token) && !w.calls[c].pc.RefreshLookup?
  }

  /** The sessions that replaced `p`. */
  function Successors(st: State, p: int): set<int> {
    set id | id in st.origin && st.origin[id] == p
  }

  predicate Barred(pc: Pc) {
    match pc
    case RefreshLookup => true
    case RefreshCheck(s) => s.status.Revoked?
    case Done(Failed(_)) => true
    case _ => false
  }

  /** Session `p` is revoked, and of all its rotations only those in `early` have passed or can
      still pass the check. */
  ghost predicate Closed(w: World, p: int, early: set<int>) {
    && p in w.st.table && w.st.table[p].status.Revoked?
    && forall c :: c in w.calls && c !in early && w.calls[c].req == RefreshReq(w.st.table[p].token) ==>
         Barred(w.calls[c].pc) && !Lineage.Creates(w.st, c)
  }

  lemma BarredStays(cfg: Config, st: State, call: Call, ch: Choice, p: int)
    requires TokensUnique(st.table) && p in st.table && st.table[p].status.Revoked?
    requires call.req == RefreshReq(st.table[p].token) && Barred(call.pc)
    ensures var m := Decide(cfg, st, call, ch); Barred(m.pc) && m.effect == Nothing
  {
  }

  lemma ActCloses(w: World, c: int, ch: Choice, p: int, early: set<int>)
    requires Lineage.Inv(w) && c in w.calls && !w.calls[c].pc.Done? && !Repeats(w.st, w.calls[c].pc, ch)
    requires Closed(w, p, early)
    ensures Closed(Act(w, c, ch), p, early)
  {
    var w' := Act(w, c, ch);
    var m := Decide(w.cfg, w.st, w.calls[c], ch);
    DecideAdmissible(w.cfg, w.st, w.calls[c], ch);
    Lineage.ApplyAfter(w.st, c, m.effect);
    forall d | d in w'.calls && d !in early && w'.calls[d].req == RefreshReq(w'.st.table[p].token)
      ensures Barred(w'.calls[d].pc) && !Lineage.Creates(w'.st, d)
    {
      if d == c {
        BarredStays(w.cfg, w.st, w.calls[c], ch, p);
      } else {
        Lineage.CreatesStable(w.st, w'.st, c, d);
      }
    }
  }

  lemma StepCloses(w: World, s: Step, p: int, early: set<int>)
    requires Lineage.Inv(w) && Closed(w, p, early)
    ensures Closed(Next(w, s), p, early)
  {
    match s
    case Tick(dt) => ElapseCloses(w, dt, p, early);
    case Expel(_) => SameCreators(w.st, Next(w, s).st);
    case Start(c, _) => assert c !in w.calls ==> !Lineage.Creates(w.st, c);
    case Go(c, ch) =>
      if Enabled(w, s) {
        Lineage.ElapseKeeps(w, ch.dt);
        ElapseCloses(w, ch.dt, p, early);
        ActCloses(Elapse(w, ch.dt), c, ch, p, early);
      }
  }

  lemma ElapseCloses(w: World, dt: nat, p: int, early: set<int>)
    requires Closed(w, p, early)
    ensures Closed(Elapse(w, dt), p, early)
  {
    SameCreators(w.st, Elapse(w, dt).st);
  }

  lemma SameCreators(s: State, s': State)
    requires s'.creator == s.creator
    ensures forall c :: Lineage.Creates(s', c) == Lineage.Creates(s, c)
  {
  }

  lemma {:induction false} RunCloses(w: World, steps: seq<Step>, p: int, early: set<int>)
    requires Lineage.Inv(w) && Closed(w, p, early)
    ensures Closed(Run(w, steps), p, early)
  {
    if steps != [] {
      var before := steps[..|steps| - 1];
      RunCloses(w, before, p, early);
      Lineage.RunKeeps(w, before);
      RunLast(w, steps);
      StepCloses(Run(w, before), steps[|steps| - 1], p, early);
    }
  }

  /** Once a revocation of `p` has committed, a rotation of its token that looks it up later is
      rejected forever: it never issues a pair and never creates a row. */
  lemma LateRotationsFail(cfg: Config, before: seq<Step>, after: seq<Step>, p: int, c: int)
    ensures var w := Run(Init(cfg), before);
            p in w.st.table && w.st.table[p].status.Revoked? ==>
              var w' := Run(w, after);
              c in w'.calls && w'.calls[c].req == RefreshReq(w.st.table[p].token) && c !in Lookups(w, p) ==>
                !Lineage.Creates(w'.st, c) && (w'.calls[c].pc.Done? ==> w'.calls[c].pc.outcome.Failed?)
  {
    var w := Run(Init(cfg), before);
    Lineage.RunKeeps(Init(cfg), before);
    if p in w.st.table && w.st.table[p].status.Revoked? {
      CloseNow(w, p);
      RunCloses(w, after, p, Lookups(w, p));
      RunTable(w, after);
    }
  }

  lemma CloseNow(w: World, p: int)
    requires Lineage.Inv(w) && p in w.st.table && w.st.table[p].status.Revoked?
    ensures Closed(w, p, Lookups(w, p))
  {
    forall c | c in w.calls && c !in Lookups(w, p) && w.calls[c].req == RefreshReq(w.st.table[p].token)
      ensures Barred(w.calls[c].pc) && !Lineage.Creates(w.st, c)
    {
      assert Lineage.CallInv(w.st, c, w.calls[c]);
    }
  }

  /** However calls interleave, a session gets at most as many successors as there were rotations
      that had looked it up when it was revoked. */
  lemma SuccessorsBounded(cfg: Config, before: seq<Step>, after: seq<Step>, p: int)
    ensures var w := Run(Init(cfg), before);
            p in w.st.table && w.st.table[p].status.Revoked? ==>
              |Successors(Run(w, after).st, p)| <= |Lookups(w, p)|
  {
    var w := Run(Init(cfg), before);
    Lineage.RunKeeps(Init(cfg), before);
    if p in w.st.table && w.st.table[p].status.Revoked? {
      CloseNow(w, p);
      RunCloses(w, after, p, Lookups(w, p));
      RunTable(w, after);
      Lineage.RunKeeps(w, after);
      CreatorsAreEarly(Run(w, after), p, Lookups(w, p));
    }
  }

  lemma CreatorsAreEarly(w: World, p: int, early: set<int>)
    requires Lineage.Inv(w) && Closed(w, p, early)
    ensures |Successors(w.st, p)| <= |early|
  {
    var heirs := Successors(w.st, p);
    var maker := map id | id in heirs && id in w.st.creator :: w.st.creator[id];
    forall id | id in heirs
      ensures id in maker && maker[id] in early
    {
      assert id in w.st.creator;
      assert Lineage.OriginInv(w.st, id, w.calls[w.st.creator[id]].req);
      assert Lineage.Creates(w.st, w.st.creator[id]);
    }
    assert Lineage.CreatorsInv(w);
    forall j, k | j in maker && k in maker && maker[j] == maker[k]
      ensures j == k
    {
      assert w.st.creator[j] == w.st.creator[k];
    }
    InjectionBound(maker, early);
    assert maker.Keys == heirs;
  }

  /** The rows of a user that are active. */
  function ActiveRows(t: Table, user: int): set<int> {
    set id | id in t && t[id].userId == user && t[id].status.Active?
  }

  /** The calls that inserted a row of a user, and those that revoked one. */
  ghost function Inserters(st: State, user: int): set<int> {
    set id | id in st.creator && id in st.table && st.table[id].userId == user :: st.creator[id]
  }

  ghost function Revokers(st: State, user: int): set<int> {
    set id | id in st.flipper && id in st.table && st.table[id].userId == user :: st.flipper[id]
  }

  /** Conservation, in every interleaving: the active rows of a user number as many as the calls that
      inserted a row of that user, less the calls that revoked one. */
  lemma ActiveRowsConserved(cfg: Config, steps: seq<Step>, user: int)
    ensures var st := Run(Init(cfg), steps).st;
            |ActiveRows(st.table, user)| == |Inserters(st, user)| - |Revokers(st, user)|
  {
    Lineage.RunKeeps(Init(cfg), steps);
    var w := Run(Init(cfg), steps);
    var t := w.st.table;
    var all := set id | id in t && t[id].userId == user;
    var gone := set id | id in t && t[id].userId == user && t[id].status.Revoked?;
    InsertersCount(w, user, all);
    RevokersCount(w, user, gone);
    assert ActiveRows(t, user) == all - gone && gone <= all;
  }

  /** The row of the user that call `c` inserted, and the one it revoked. */
  ghost function InsertedBy(st: State, user: int, c: int): (id: int)
    requires c in Inserters(st, user)
    ensures id in st.creator && id in st.table && st.table[id].userId == user && st.creator[id] == c
  {
    var id :| id in st.creator && id in st.table && st.table[id].userId == user && st.creator[id] == c;
    id
  }

  ghost function RevokedBy(st: State, user: int, c: int): (id: int)
    requires c in Revokers(st, user)
    ensures id in st.flipper && id in st.table && st.table[id].userId == user && st.flipper[id] == c
  {
    var id :| id in st.flipper && id in st.table && st.table[id].userId == user && st.flipper[id] == c;
    id
  }

  lemma InsertersCount(w: World, user: int, all: set<int>)
    requires Lineage.Recorded(w.st) && Lineage.CreatorsInv(w)
    requires all == set id | id in w.st.table && w.st.table[id].userId == user
    ensures |Inserters(w.st, user)| == |all|
  {
    var calls := Inserters(w.st, user);
    var row := map c | c in calls :: InsertedBy(w.st, user, c);
    forall c, d | c in row && d in row && row[c] == row[d] ensures c == d {}
    InjectionBound(row, all);
    var made := map id | id in all :: w.st.creator[id];
    forall id | id in made ensures made[id] in calls {}
    forall a, b | a in made && b in made && made[a] == made[b]
      ensures a == b
    {
      assert w.st.creator[a] == w.st.creator[b];
    }
    InjectionBound(made, calls);
    assert row.Keys == calls && made.Keys == all;
  }

  lemma RevokersCount(w: World, user: int, gone: set<int>)
    requires Lineage.Recorded(w.st) && Lineage.FlippersInv(w) && TokensUnique(w.st.table)
    requires gone == set id | id in w.st.table && w.st.table[id].userId == user && w.st.table[id].status.Revoked?
    ensures |Revokers(w.st, user)| == |gone|
  {
    var calls := Revokers(w.st, user);
    var row := map c | c in calls :: RevokedBy(w.st, user, c);
    forall c, d | c in row && d in row && row[c] == row[d] ensures c == d {}
    InjectionBound(row, gone);
    var made := map id | id in gone :: w.st.flipper[id];
    forall id | id in made ensures made[id] in calls {}
    forall a, b | a in made && b in made && made[a] == made[b]
      ensures a == b
    {
      assert w.st.table[a].token == w.st.table[b].token;
    }
    InjectionBound(made, calls);
    assert row.Keys == calls && made.Keys == gone;
  }
}
