/** One whole rotation, access by access: what it leaves in the table and in the cache. */
module AuthWholeRotation {
  import opened Common
  import opened SessionTable
  import opened AuthMachine
  import opened AuthTable
  import opened AuthCalls
  import opened AuthAtomic
  import Lineage = AuthLineage

  /** The rotation finds row `p` by `token`, active and not past its expiry at the check. */
  predicate Passed(st: State, p: int, token: Token, env: Env) {
    && env(0).fault == Fine
    && p in st.table && st.table[p].token == token && st.table[p].status.Active?
    && st.now + env(0).dt + env(1).dt <= st.table[p].refreshExpiresAt
  }

  lemma LookupIs(w: World, c: int, ch: Choice)
    requires c in w.calls && w.calls[c].pc == RefreshLookup
    ensures var w', p := Next(w, Go(c, ch)), Holder(w.st.table, w.calls[c].req.Bearer());
            && w'.st == w.st.(now := w.st.now + ch.dt) && c in w'.calls && w'.calls[c].req == w.calls[c].req
            && if ch.fault == Fine && p.Some? then w'.calls[c].pc == RefreshCheck(Read(w.st.table, p.value))
               else w'.calls[c].pc.Done? && w'.calls[c].pc.outcome.Failed?
  {
  }

  lemma CheckIs(w: World, c: int, ch: Choice)
    requires c in w.calls && w.calls[c].pc.RefreshCheck?
    ensures var w', s := Next(w, Go(c, ch)), w.calls[c].pc.session;
            && w'.st == w.st.(now := w.st.now + ch.dt) && c in w'.calls && w'.calls[c].req == w.calls[c].req
            && w'.calls[c].pc == (if s.status == Active && w'.st.now <= s.refreshExpiresAt then RefreshRevoke(s)
                                  else Done(Failed(InvalidRefreshToken)))
  {
  }

  lemma RevocationIs(w: World, c: int, ch: Choice)
    requires c in w.calls && w.calls[c].pc.RefreshRevoke?
    ensures var w' := Next(w, Go(c, ch));
            && w'.st.cache == w.st.cache
            && w'.st.table == (if ch.fault == Lost then w.st.table
                               else Revoke(w.st.table, w.calls[c].req.Bearer(), w'.st.now))
            && c in w'.calls && w'.calls[c].pc == RefreshEvict(w.calls[c].pc.session)
  {
  }

  lemma EvictionIs(w: World, c: int, ch: Choice)
    requires c in w.calls && w.calls[c].pc.RefreshEvict?
    ensures var w' := Next(w, Go(c, ch));
            && w'.st.table == w.st.table
            && w'.st.cache == (if ch.fault == Lost then w.st.cache else w.st.cache - {w.calls[c].pc.session.id})
            && c in w'.calls && w'.calls[c].pc.MakeToken?
  {
  }

  /** Call `c` is past its revocation and its deletion, if it makes any. */
  predicate Ending(w: World, c: int) {
    c in w.calls && (Lineage.Issuing(w.calls[c].pc) || w.calls[c].pc.Done?)
  }

  lemma IssuingKeeps(w: World, c: int, ch: Choice)
    requires Reachable(w) && Ending(w, c)
    ensures SameSoFar(w, Next(w, Go(c, ch))) && Ending(Next(w, Go(c, ch)), c)
  {
    if Enabled(w, Go(c, ch)) {
      ReachableTable(w);
      var st := Elapse(w, ch.dt).st;
      IssuingMoves(w.cfg, st, w.calls[c], ch);
      IssuingApplies(st, c, Decide(w.cfg, st, w.calls[c], ch).effect);
    }
  }

  predicate Adds(st: State, e: Effect) {
    e.Nothing? || e.Draw? || (e.InsertRow? && e.id >= st.nextId)
  }

  lemma IssuingMoves(cfg: Config, st: State, call: AuthMachine.Call, ch: Choice)
    requires Lineage.Issuing(call.pc)
    ensures var m := Decide(cfg, st, call, ch); Adds(st, m.effect) && (Lineage.Issuing(m.pc) || m.pc.Done?)
  {
  }

  lemma IssuingApplies(st: State, c: int, e: Effect)
    requires Adds(st, e) && forall id :: id in st.table ==> id < st.nextId
    ensures var st' := Apply(st, c, e);
            st'.cache == st.cache && forall id :: id in st.table ==> id in st'.table && st'.table[id] == st.table[id]
  {
  }

  /** `w'` has the cache of `w` and every row of `w` as it was. */
  predicate SameSoFar(w: World, w': World) {
    && w'.st.cache == w.st.cache
    && forall id :: id in w.st.table ==> id in w'.st.table && w'.st.table[id] == w.st.table[id]
  }

  lemma SameTwice(w: World, w': World, w'': World)
    requires SameSoFar(w, w') && SameSoFar(w', w'')
    ensures SameSoFar(w, w'')
  {
  }

  lemma {:induction false} TailRuns(w: World, c: int, req: Request, env: Env, j: nat, k: nat)
    requires Reachable(w) && c !in w.calls && j <= k && Ending(Progress(w, c, req, env, j), c)
    ensures SameSoFar(Progress(w, c, req, env, j), Progress(w, c, req, env, k)) && Ending(Progress(w, c, req, env, k), c)
  {
    if j < k {
      TailRuns(w, c, req, env, j, k - 1);
      ProgressReachable(w, c, req, env, k - 1);
      ProgressNext(w, c, req, env, k);
      IssuingKeeps(Progress(w, c, req, env, k - 1), c, env(k - 1));
      SameTwice(Progress(w, c, req, env, j), Progress(w, c, req, env, k - 1), Progress(w, c, req, env, k));
    }
  }

  /** What a rotation that passes the check with row `p` does to the table and the cache, up to the row
      it adds. */
  predicate Spends(st: State, st': State, p: int, env: Env)
    requires p in st.table
  {
    && st'.cache == (if env(REFRESH_EVICTION).fault == Lost then st.cache else st.cache - {p})
    && (forall id :: id in st.table && id != p ==> id in st'.table && st'.table[id] == st.table[id])
    && p in st'.table && SameIdentity(st.table[p], st'.table[p])
    && (st'.table[p].status.Revoked? <==> env(REFRESH_REVOCATION).fault != Lost)
  }

  /** A whole rotation either fails before it changes anything, or passes the check with the row that
      holds its token, and spends it. */
  lemma RotationIs(w: World, c: int, token: Token, env: Env) returns (p: Option<int>)
    requires Reachable(w) && c !in w.calls
    ensures var w' := Completed(w, c, RefreshReq(token), env);
            && c in w'.calls
            && match p
               case Some(id) => Passed(w.st, id, token, env) && Spends(w.st, w'.st, id, env)
               case None =>
                 && (forall id :: !Passed(w.st, id, token, env)) && SameSoFar(w, w')
                 && w'.calls[c].pc.Done? && w'.calls[c].pc.outcome.Failed?
  {
    var req := RefreshReq(token);
    var w0 := Progress(w, c, req, env, 0);
    var w1 := Progress(w, c, req, env, 1);
    ProgressNext(w, c, req, env, 1);
    LookupIs(w0, c, env(0));
    if w1.calls[c].pc.Done? {
      p := None;
      DoneStays(w, c, req, env, 1, LONGEST);
    } else {
      ProgressNext(w, c, req, env, 2);
      CheckIs(w1, c, env(1));
      p := CheckedRotationIs(w, c, token, env, w1.calls[c].pc.session.id);
    }
  }

  lemma CheckedRotationIs(w: World, c: int, token: Token, env: Env, id: int) returns (p: Option<int>)
    requires Reachable(w) && c !in w.calls && env(0).fault == Fine
    requires id in w.st.table && w.st.table[id].token == token
    requires var w2 := Progress(w, c, RefreshReq(token), env, 2);
             && w2.st == w.st.(now := w.st.now + env(0).dt + env(1).dt)
             && c in w2.calls && w2.calls[c].req == RefreshReq(token)
             && w2.calls[c].pc == (if w.st.table[id].status.Active? && w2.st.now <= w.st.table[id].refreshExpiresAt
                                   then RefreshRevoke(Read(w.st.table, id)) else Done(Failed(InvalidRefreshToken)))
    ensures var w' := Completed(w, c, RefreshReq(token), env);
            && c in w'.calls
            && match p
               case Some(id) => Passed(w.st, id, token, env) && Spends(w.st, w'.st, id, env)
               case None =>
                 && (forall id :: !Passed(w.st, id, token, env)) && SameSoFar(w, w')
                 && w'.calls[c].pc.Done? && w'.calls[c].pc.outcome.Failed?
  {
    var req := RefreshReq(token);
    if Progress(w, c, req, env, 2).calls[c].pc.Done? {
      p := None;
      DoneStays(w, c, req, env, 2, LONGEST);
      ReachableTable(w);
    } else {
      p := Some(id);
      SpendingIs(w, c, token, env, id);
    }
  }

  lemma SpendingIs(w: World, c: int, token: Token, env: Env, p: int)
    requires Reachable(w) && c !in w.calls && p in w.st.table && w.st.table[p].token == token
    requires w.st.table[p].status.Active?
    requires var w2 := Progress(w, c, RefreshReq(token), env, 2);
             && w2.st.table == w.st.table && w2.st.cache == w.st.cache && c in w2.calls
             && w2.calls[c].req == RefreshReq(token) && w2.calls[c].pc == RefreshRevoke(Read(w.st.table, p))
    ensures var w' := Completed(w, c, RefreshReq(token), env);
            c in w'.calls && Spends(w.st, w'.st, p, env)
  {
    var req := RefreshReq(token);
    var w2, w3, w4 := Progress(w, c, req, env, 2), Progress(w, c, req, env, 3), Progress(w, c, req, env, 4);
    ProgressNext(w, c, req, env, 3);
    RevocationIs(w2, c, env(2));
    ReachableTable(w);
    RevokeOne(w.st.table, token, w3.st.now, p);
    ProgressNext(w, c, req, env, 4);
    EvictionIs(w3, c, env(3));
    TailRuns(w, c, req, env, 4, LONGEST);
    SpentStays(w.st, w4.st, Progress(w, c, req, env, LONGEST).st, p, env);
  }

  lemma SpentStays(st: State, st1: State, st2: State, p: int, env: Env)
    requires p in st.table && Spends(st, st1, p, env) && st2.cache == st1.cache
    requires forall id :: id in st1.table ==> id in st2.table && st2.table[id] == st1.table[id]
    ensures Spends(st, st2, p, env)
  {
  }

  // ---- What a lost deletion costs a rotation ----

  /** A rotation breaks the agreement of cache and table exactly when it passes the check, its revocation
      is not lost, its deletion is, and the session is cached. */
  lemma RotationCoherentIff(w: World, c: int, token: Token, env: Env)
    requires Reachable(w) && Coherent(w.st) && c !in w.calls
    ensures Coherent(Completed(w, c, RefreshReq(token), env).st) <==>
              !exists p :: Passed(w.st, p, token, env) && p in w.st.cache
                           && env(REFRESH_REVOCATION).fault != Lost && env(REFRESH_EVICTION).fault == Lost
  {
    var p := RotationIs(w, c, token, env);
    var st' := Completed(w, c, RefreshReq(token), env).st;
    if p.None? {
      CoherentStays(w.st, st');
    } else {
      ReachableTable(w);
      PassedIsHolder(w.st, p.value, token, env);
      SpendingCoherentIff(w.st, st', p.value, env);
    }
  }

  lemma PassedIsHolder(st: State, p: int, token: Token, env: Env)
    requires TokensUnique(st.table) && Passed(st, p, token, env)
    ensures forall q :: Passed(st, q, token, env) ==> q == p
  {
  }

  lemma CoherentStays(st: State, st': State)
    requires Coherent(st) && st'.cache == st.cache
    requires forall id :: id in st.table ==> id in st'.table && st'.table[id] == st.table[id]
    ensures Coherent(st')
  {
    forall id | id in st'.cache ensures Faithful(st', id) { assert Faithful(st, id); }
  }

  lemma SpendingCoherentIff(st: State, st': State, p: int, env: Env)
    requires Coherent(st) && p in st.table && st.table[p].status.Active? && Spends(st, st', p, env)
    ensures Coherent(st') <==>
              !(p in st.cache && env(REFRESH_REVOCATION).fault != Lost && env(REFRESH_EVICTION).fault == Lost)
  {
    forall id | id in st'.cache
      ensures Faithful(st', id) <==> id != p || st'.table[p].status.Active?
    {
      assert Faithful(st, id);
    }
  }
}
