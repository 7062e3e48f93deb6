/** Calls that run from start to end with nothing in between. */
module AuthCalls {
  import opened Common
  import opened SessionTable
  import opened AuthMachine
  import opened AuthTable

  /** What the environment decides at each access of one call. */
  type Env = nat -> Choice

  /** The longest call, a successful rotation, makes this many accesses. */
  const LONGEST: nat := 8

  /** Call `c` after its first `k` accesses. */
  ghost function Progress(w: World, c: int, req: Request, env: Env, k: nat): World
    decreases k, 1
  {
    if k == 0 then Begin(w, c, req) else ProgressOn(w, c, req, env, k)
  }

  ghost function ProgressOn(w: World, c: int, req: Request, env: Env, k: nat): World
    requires k > 0
    decreases k, 0
  {
    Next(Progress(w, c, req, env, k - 1), Go(c, env(k - 1)))
  }

  lemma ProgressNext(w: World, c: int, req: Request, env: Env, k: nat)
    requires k > 0
    ensures Progress(w, c, req, env, k) == Next(Progress(w, c, req, env, k - 1), Go(c, env(k - 1)))
  {
    assert Progress(w, c, req, env, k) == ProgressOn(w, c, req, env, k);
  }

  ghost function Completed(w: World, c: int, req: Request, env: Env): World {
    Progress(w, c, req, env, LONGEST)
  }

  ghost function Script(c: int, req: Request, env: Env, k: nat): seq<Step> {
    if k == 0 then [Start(c, req)] else Script(c, req, env, k - 1) + [Go(c, env(k - 1))]
  }

  /** The random source offers only values it has never produced. */
  ghost predicate Novel(w: World, env: Env) {
    forall k: nat :: env(k).token !in w.st.drawn
  }

  lemma {:induction false} ScriptRuns(w: World, c: int, req: Request, env: Env, k: nat)
    requires c !in w.calls
    ensures Run(w, Script(c, req, env, k)) == Progress(w, c, req, env, k)
  {
    var script := Script(c, req, env, k);
    if k == 0 {
      assert script[..0] == [];
      RunLast(w, script);
    } else {
      ScriptRuns(w, c, req, env, k - 1);
      ProgressNext(w, c, req, env, k);
      assert script[..|script| - 1] == Script(c, req, env, k - 1);
      RunLast(w, script);
    }
  }

  lemma {:induction false} RunConcat(w: World, a: seq<Step>, b: seq<Step>)
    ensures Run(w, a + b) == Run(Run(w, a), b)
  {
    if b == [] {
      assert a + b == a;
    } else {
      var most := b[..|b| - 1];
      RunConcat(w, a, most);
      assert (a + b)[..|a + b| - 1] == a + most;
      RunLast(w, a + b);
      RunLast(Run(w, a), b);
    }
  }

  lemma {:induction false} ProgressReachable(w: World, c: int, req: Request, env: Env, k: nat)
    requires Reachable(w) && c !in w.calls
    ensures Reachable(Progress(w, c, req, env, k))
  {
    if k == 0 {
      ReachableNext(w, Start(c, req));
    } else {
      ProgressReachable(w, c, req, env, k - 1);
      ProgressNext(w, c, req, env, k);
      ReachableNext(Progress(w, c, req, env, k - 1), Go(c, env(k - 1)));
    }
  }

  lemma {:induction false} DoneStays(w: World, c: int, req: Request, env: Env, k: nat, n: nat)
    requires k <= n
    requires c in Progress(w, c, req, env, k).calls && Progress(w, c, req, env, k).calls[c].pc.Done?
    ensures Progress(w, c, req, env, n) == Progress(w, c, req, env, k)
  {
    if k < n {
      DoneStays(w, c, req, env, k, n - 1);
      ProgressNext(w, c, req, env, n);
    }
  }
}
