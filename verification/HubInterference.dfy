/** What a running push sends while its user's list changes. */
module HubInterference {
  import opened Common
  import opened StreamLists
  import opened HubMachine

  /** Push `p` read `list` from an array that nothing has shifted since. */
  predicate Undisturbed(w: World, p: int, user: int, list: seq<Slot>) {
    && p in w.pushes
    && var push := w.pushes[p];
       && push.user == user && push.slice.len == |list|
       && push.pos <= |list| && push.sent == list[..push.pos]
       && (list != [] ==>
             && push.slice.arr in w.heap && |list| <= |w.heap[push.slice.arr]|
             && w.heap[push.slice.arr][..|list|] == list
             && user in w.streams
             && (w.streams[user].arr == push.slice.arr ==> |list| <= w.streams[user].len))
       && (w.lock.Some? ==> w.lock.value.user != user)
  }

  predicate Quiet(s: Step, user: int) {
    s.Unsubscribe? ==> s.user != user
  }

  lemma SnapshotUndisturbed(w: World, p: int, user: int)
    requires Inv(w) && w.lock.None? && p !in w.pushes
    ensures Undisturbed(Next(w, Snapshot(p, user)), p, user, List(w, user))
  {
  }

  lemma SubscribeUndisturbed(w: World, s: Step, p: int, user: int, list: seq<Slot>)
    requires Inv(w) && Undisturbed(w, p, user, list) && s.Subscribe?
    ensures Undisturbed(Next(w, s), p, user, list)
  {
    if s.user in w.streams { assert HeaderInv(w, s.user, w.streams[s.user]); }
  }

  lemma MoveUndisturbed(w: World, p: int, user: int, list: seq<Slot>)
    requires Inv(w) && Undisturbed(w, p, user, list)
    ensures Undisturbed(Next(w, Move), p, user, list)
  {
    if w.lock.Some? { assert HeaderInv(w, w.lock.value.user, w.lock.value.slice); }
  }

  lemma SendUndisturbed(w: World, q: int, p: int, user: int, list: seq<Slot>)
    requires Undisturbed(w, p, user, list)
    ensures Undisturbed(Next(w, Send(q)), p, user, list)
  {
  }

  lemma StepUndisturbed(w: World, s: Step, p: int, user: int, list: seq<Slot>)
    requires Inv(w) && Undisturbed(w, p, user, list) && Quiet(s, user)
    ensures Undisturbed(Next(w, s), p, user, list)
  {
    match s
    case Subscribe(_, _, _, _) => SubscribeUndisturbed(w, s, p, user, list);
    case Move => MoveUndisturbed(w, p, user, list);
    case Send(q) => SendUndisturbed(w, q, p, user, list);
    case _ =>
  }

  lemma {:induction false} RunUndisturbed(w: World, steps: seq<Step>, p: int, user: int, list: seq<Slot>)
    requires Inv(w) && Undisturbed(w, p, user, list) && (forall s :: s in steps ==> Quiet(s, user))
    ensures Undisturbed(Run(w, steps), p, user, list)
  {
    if steps != [] {
      var before := steps[..|steps| - 1];
      RunUndisturbed(w, before, p, user, list);
      RunKeeps(w, before);
      RunLast(w, steps);
      StepUndisturbed(Run(w, before), steps[|steps| - 1], p, user, list);
    }
  }

  /** However many streams subscribe meanwhile, in place or by reallocation: a push whose user loses
      no stream sends to exactly the list at its start, once each, in order. */
  lemma QuietPushSendsSnapshot(before: seq<Step>, after: seq<Step>, p: int, user: int)
    requires forall s :: s in after ==> Quiet(s, user)
    ensures var w := Run(Init(), before);
            w.lock.None? && p !in w.pushes ==>
              var w' := Run(Next(w, Snapshot(p, user)), after);
              && p in w'.pushes
              && w'.pushes[p].slice.len == |List(w, user)|
              && w'.pushes[p].pos <= |List(w, user)|
              && w'.pushes[p].sent == List(w, user)[..w'.pushes[p].pos]
  {
    var w := Run(Init(), before);
    RunKeeps(Init(), before);
    if w.lock.None? && p !in w.pushes {
      SnapshotUndisturbed(w, p, user);
      StepKeeps(w, Snapshot(p, user));
      RunUndisturbed(Next(w, Snapshot(p, user)), after, p, user, List(w, user));
    }
  }

  /** The stream registered at position `k`, or the one after it; before position `i`, the former. */
  predicate NearlyAt(slot: Slot, list: seq<Slot>, k: nat, i: nat)
    requires k + 1 < |list|
  {
    slot == list[k] || (i <= k && slot == list[k + 1])
  }

  /** Push `p` read `list` from an array in which at most one shift, from slot `i` on, has begun since. */
  predicate Frayed(w: World, p: int, user: int, list: seq<Slot>, i: nat) {
    && p in w.pushes
    && var push := w.pushes[p];
       && push.user == user && push.slice.len == |list| && push.pos == |push.sent| <= |list|
       && (forall k: nat :: k < push.pos && k + 1 < |list| ==> NearlyAt(push.sent[k], list, k, i))
       && (list != [] ==>
             && push.slice.arr in w.heap && |list| <= |w.heap[push.slice.arr]|
             && (forall k: nat :: k + 1 < |list| ==> NearlyAt(w.heap[push.slice.arr][k], list, k, i))
             && if w.lock.Some? && w.lock.value.user == user
                then w.lock.value.slice.arr == push.slice.arr ==>
                  && |list| <= w.lock.value.slice.len && i <= w.lock.value.j
                  && forall k: nat :: w.lock.value.j <= k < |list| ==> w.heap[push.slice.arr][k] == list[k]
                else user in w.streams && w.streams[user].arr == push.slice.arr ==>
                  |list| <= w.streams[user].len + 1)
  }

  lemma UnsubscribeFrays(w: World, stream: int, p: int, user: int, list: seq<Slot>)
    requires Inv(w) && Undisturbed(w, p, user, list) && w.lock.None?
    ensures Frayed(Next(w, Unsubscribe(user, stream)), p, user, list, Find(List(w, user), Holds(stream)))
  {
  }

  lemma SubscribeFrayed(w: World, s: Step, p: int, user: int, list: seq<Slot>, i: nat)
    requires Inv(w) && Frayed(w, p, user, list, i) && s.Subscribe?
    ensures Frayed(Next(w, s), p, user, list, i)
  {
  }

  lemma MoveFrayed(w: World, p: int, user: int, list: seq<Slot>, i: nat)
    requires Inv(w) && Frayed(w, p, user, list, i)
    ensures Frayed(Next(w, Move), p, user, list, i)
  {
  }

  lemma SendFrayed(w: World, q: int, p: int, user: int, list: seq<Slot>, i: nat)
    requires Inv(w) && Frayed(w, p, user, list, i)
    ensures Frayed(Next(w, Send(q)), p, user, list, i)
  {
  }

  lemma StepFrayed(w: World, s: Step, p: int, user: int, list: seq<Slot>, i: nat)
    requires Inv(w) && Frayed(w, p, user, list, i) && Quiet(s, user)
    ensures Frayed(Next(w, s), p, user, list, i)
  {
    match s
    case Subscribe(_, _, _, _) => SubscribeFrayed(w, s, p, user, list, i);
    case Move => MoveFrayed(w, p, user, list, i);
    case Send(q) => SendFrayed(w, q, p, user, list, i);
    case _ =>
  }

  lemma {:induction false} RunFrayed(w: World, steps: seq<Step>, p: int, user: int, list: seq<Slot>, i: nat)
    requires Inv(w) && Frayed(w, p, user, list, i) && (forall s :: s in steps ==> Quiet(s, user))
    ensures Frayed(Run(w, steps), p, user, list, i)
  {
    if steps != [] {
      var before := steps[..|steps| - 1];
      RunFrayed(w, before, p, user, list, i);
      RunKeeps(w, before);
      RunLast(w, steps);
      StepFrayed(Run(w, before), steps[|steps| - 1], p, user, list, i);
    }
  }

  /** One `Unsubscribe` of the user, with its moves interleaved in any way with the push's reads and
      with any number of `Subscribe`s: every send but the last goes to the stream registered at that
      position or to the next one, and never to the next one before the removed position. */
  lemma OneUnsubscribeFrays(before: seq<Step>, between: seq<Step>, after: seq<Step>, p: int, user: int, stream: int)
    requires forall s :: s in between || s in after ==> Quiet(s, user)
    ensures var w := Run(Init(), before);
            w.lock.None? && p !in w.pushes ==>
              var list, mid := List(w, user), Run(Next(w, Snapshot(p, user)), between);
              mid.lock.None? ==>
                var w' := Run(Next(mid, Unsubscribe(user, stream)), after);
                && p in w'.pushes && w'.pushes[p].pos == |w'.pushes[p].sent| <= |list|
                && forall k: nat :: k < w'.pushes[p].pos && k + 1 < |list| ==>
                     NearlyAt(w'.pushes[p].sent[k], list, k, Find(List(mid, user), Holds(stream)))
  {
    var w := Run(Init(), before);
    RunKeeps(Init(), before);
    if w.lock.None? && p !in w.pushes {
      var list, first := List(w, user), Next(w, Snapshot(p, user));
      SnapshotUndisturbed(w, p, user);
      StepKeeps(w, Snapshot(p, user));
      RunUndisturbed(first, between, p, user, list);
      RunKeeps(first, between);
      var mid := Run(first, between);
      if mid.lock.None? {
        UnsubscribeFrays(mid, stream, p, user, list);
        StepKeeps(mid, Unsubscribe(user, stream));
        RunFrayed(Next(mid, Unsubscribe(user, stream)), after, p, user, list, Find(List(mid, user), Holds(stream)));
      }
    }
  }

  // ---- The exact effect of an Unsubscribe that no read interrupts ----

  function Repeat(s: Step, k: nat): seq<Step> {
    if k == 0 then [] else Repeat(s, k - 1) + [s]
  }

  lemma RunRepeat(w: World, s: Step, k: nat)
    requires k > 0
    ensures Run(w, Repeat(s, k)) == Next(Run(w, Repeat(s, k - 1)), s)
  {
    assert Repeat(s, k)[..|Repeat(s, k)| - 1] == Repeat(s, k - 1);
    RunLast(w, Repeat(s, k));
  }

  /** `a` with slots `i + 1 .. i + k` copied one slot to the left. */
  function Moved(a: seq<Slot>, i: nat, k: nat): seq<Slot>
    requires i + k < |a|
  {
    a[..i] + a[i + 1..i + k + 1] + a[i + k..]
  }

  /** `w` with a shift advanced by `k` moves. */
  function Advanced(w: World, k: nat): World
    requires w.lock.Some? && w.lock.value.j + k < |Array(w, w.lock.value.slice.arr)|
  {
    var s := w.lock.value;
    w.(heap := w.heap[s.slice.arr := Moved(w.heap[s.slice.arr], s.j, k)], lock := Some(Shift(s.user, s.slice, s.j + k)))
  }

  lemma MoveOnce(w: World, k: nat)
    requires w.lock.Some? && w.lock.value.slice.len <= |Array(w, w.lock.value.slice.arr)|
    requires w.lock.value.j + k + 1 < w.lock.value.slice.len
    ensures Next(Advanced(w, k), Move) == Advanced(w, k + 1)
  {
    var a, j := w.heap[w.lock.value.slice.arr], w.lock.value.j;
    var almost := Moved(a, j, k);
    assert almost[j + k := almost[j + k + 1]] == Moved(a, j, k + 1);
  }

  lemma MoveNothing(w: World)
    requires w.lock.Some? && w.lock.value.j < |Array(w, w.lock.value.slice.arr)|
    ensures Run(w, Repeat(Move, 0)) == w && Advanced(w, 0) == w
  {
    var a := w.heap[w.lock.value.slice.arr];
    assert Moved(a, w.lock.value.j, 0) == a;
  }

  lemma {:induction false} MovesShift(w: World, k: nat)
    requires w.lock.Some? && w.lock.value.slice.len <= |Array(w, w.lock.value.slice.arr)|
    requires w.lock.value.j + k < w.lock.value.slice.len
    ensures Run(w, Repeat(Move, k)) == Advanced(w, k)
  {
    if k == 0 {
      MoveNothing(w);
    } else {
      MovesShift(w, k - 1);
      MoveOnce(w, k - 1);
      OnceMore(w, Move, k, Advanced(w, k - 1), Advanced(w, k));
    }
  }

  lemma OnceMore(w: World, s: Step, k: nat, v: World, v': World)
    requires k > 0 && Run(w, Repeat(s, k - 1)) == v && Next(v, s) == v'
    ensures Run(w, Repeat(s, k)) == v'
  {
    RunRepeat(w, s, k);
  }

  /** `w` with push `p` advanced by `k` sends. */
  function Sent(w: World, p: int, k: nat): World
    requires p in w.pushes && w.pushes[p].pos + k <= |Array(w, w.pushes[p].slice.arr)|
  {
    var push := w.pushes[p];
    w.(pushes := w.pushes[p := push.(
      pos := push.pos + k, sent := push.sent + Array(w, push.slice.arr)[push.pos..push.pos + k])])
  }

  lemma SendOnce(w: World, p: int, k: nat)
    requires p in w.pushes && w.pushes[p].pos + k < w.pushes[p].slice.len <= |Array(w, w.pushes[p].slice.arr)|
    ensures Next(Sent(w, p, k), Send(p)) == Sent(w, p, k + 1)
  {
    var push := w.pushes[p];
    var a := Array(w, push.slice.arr);
    assert a[push.pos..push.pos + k + 1] == a[push.pos..push.pos + k] + [a[push.pos + k]];
    assert push.sent + (a[push.pos..push.pos + k] + [a[push.pos + k]])
        == push.sent + a[push.pos..push.pos + k] + [a[push.pos + k]];
  }

  lemma SendNothing(w: World, p: int)
    requires p in w.pushes && w.pushes[p].pos <= |Array(w, w.pushes[p].slice.arr)|
    ensures Run(w, Repeat(Send(p), 0)) == w && Sent(w, p, 0) == w
  {
    var push := w.pushes[p];
    assert push.sent + Array(w, push.slice.arr)[push.pos..push.pos] == push.sent;
  }

  lemma {:induction false} SendsRead(w: World, p: int, k: nat)
    requires p in w.pushes && w.pushes[p].pos + k <= w.pushes[p].slice.len <= |Array(w, w.pushes[p].slice.arr)|
    ensures Run(w, Repeat(Send(p), k)) == Sent(w, p, k)
  {
    if k == 0 {
      SendNothing(w, p);
    } else {
      SendsRead(w, p, k - 1);
      SendOnce(w, p, k - 1);
      OnceMore(w, Send(p), k, Sent(w, p, k - 1), Sent(w, p, k));
    }
  }

  /** The steps of a whole `Unsubscribe` that finds its stream at position `i` of `n`. */
  function Removal(user: int, stream: int, i: nat, n: nat): seq<Step>
    requires i < n
  {
    [Unsubscribe(user, stream)] + Repeat(Move, n - 1 - i) + [Unlock]
  }

  lemma {:induction false} RunConcat(w: World, a: seq<Step>, b: seq<Step>)
    ensures Run(w, a + b) == Run(Run(w, a), b)
  {
    if b == [] {
      assert a + b == a;
    } else {
      var most := b[..|b| - 1];
      RunConcat(w, a, most);
      RunLast(w, a + b);
      RunLast(Run(w, a), b);
      assert (a + b)[..|a + b| - 1] == a + most;
    }
  }

  /** `w` after a whole `Unsubscribe` of position `i`. */
  function Removed(w: World, user: int, i: nat): World
    requires user in w.streams && i < w.streams[user].len <= |Array(w, w.streams[user].arr)|
  {
    var h := w.streams[user];
    w.(heap := w.heap[h.arr := Moved(w.heap[h.arr], i, h.len - 1 - i)],
       streams := if h.len == 1 then w.streams - {user} else w.streams[user := Slice(h.arr, h.len - 1)])
  }

  lemma RemovalRuns(w: World, user: int, stream: int)
    requires Inv(w) && w.lock.None? && Find(List(w, user), Holds(stream)) < |List(w, user)|
    ensures var n, i := |List(w, user)|, Find(List(w, user), Holds(stream));
            && user in w.streams && w.streams[user].len == n <= |Array(w, w.streams[user].arr)|
            && Run(w, Removal(user, stream, i, n)) == Removed(w, user, i)
  {
    var h := Header(w, user);
    var i := Find(List(w, user), Holds(stream));
    HeaderIs(w, user, stream);
    LockTaken(w, user, stream);
    ShiftRuns(w, w.(lock := Some(Shift(user, h, i))), stream, user, h, i);
  }

  lemma HeaderIs(w: World, user: int, stream: int)
    requires Inv(w) && Find(List(w, user), Holds(stream)) < |List(w, user)|
    ensures user in w.streams && w.streams[user].len == |List(w, user)| <= |Array(w, w.streams[user].arr)|
  {
    assert user in w.streams && HeaderInv(w, user, w.streams[user]);
  }

  lemma LockTaken(w: World, user: int, stream: int)
    requires w.lock.None? && Find(List(w, user), Holds(stream)) < |List(w, user)|
    ensures Next(w, Unsubscribe(user, stream))
         == w.(lock := Some(Shift(user, Header(w, user), Find(List(w, user), Holds(stream)))))
  {
  }

  lemma ShiftRuns(w: World, w1: World, stream: int, user: int, h: Slice, i: nat)
    requires w.lock.None? && user in w.streams && w.streams[user] == h && i < h.len <= |Array(w, h.arr)|
    requires w1 == w.(lock := Some(Shift(user, h, i))) && Next(w, Unsubscribe(user, stream)) == w1
    ensures Run(w, Removal(user, stream, i, h.len)) == Removed(w, user, i)
  {
    RemovalSteps(w, user, stream, i, h.len);
    MovesShift(w1, h.len - 1 - i);
    UnlockIs(w, w1, user, h, i);
  }

  lemma RemovalSteps(w: World, user: int, stream: int, i: nat, n: nat)
    requires i < n
    ensures Run(w, Removal(user, stream, i, n))
         == Next(Run(Next(w, Unsubscribe(user, stream)), Repeat(Move, n - 1 - i)), Unlock)
  {
    ThreeRuns(w, Unsubscribe(user, stream), Repeat(Move, n - 1 - i), Unlock);
  }

  lemma ThreeRuns(w: World, first: Step, middle: seq<Step>, last: Step)
    ensures Run(w, [first] + middle + [last]) == Next(Run(Next(w, first), middle), last)
  {
    RunOne(w, first);
    RunConcat(w, [first], middle);
    RunConcat(w, [first] + middle, [last]);
    RunOne(Run(w, [first] + middle), last);
  }

  lemma UnlockIs(w: World, w1: World, user: int, h: Slice, i: nat)
    requires w.lock.None? && user in w.streams && w.streams[user] == h && i < h.len <= |Array(w, h.arr)|
    requires w1 == w.(lock := Some(Shift(user, h, i)))
    ensures Next(Advanced(w1, h.len - 1 - i), Unlock) == Removed(w, user, i)
  {
  }

  /** A whole `Unsubscribe` removes the first occurrence, and leaves the old last slot and every other
      user's list as they were. */
  lemma RemovalIs(w: World, user: int, stream: int)
    requires Inv(w) && w.lock.None? && Find(List(w, user), Holds(stream)) < |List(w, user)|
    ensures var list, h := List(w, user), Header(w, user);
            var i := Find(list, Holds(stream));
            var w' := Run(w, Removal(user, stream, i, |list|));
            && w'.lock.None? && w'.pushes == w.pushes
            && List(w', user) == RemoveFirst(list, Holds(stream))
            && (user in w'.streams <==> List(w', user) != [])
            && h.len == |list| <= |Array(w', h.arr)|
            && Array(w', h.arr)[..h.len] == Without(list, i) + [list[|list| - 1]]
            && (forall v :: v != user ==> Header(w', v) == Header(w, v) && List(w', v) == List(w, v))
  {
    RemovalRuns(w, user, stream);
    var list, h := List(w, user), Header(w, user);
    var i := Find(list, Holds(stream));
    var w' := Removed(w, user, i);
    MovedIs(w.heap[h.arr], i, h.len);
    forall v | v != user
      ensures Header(w', v) == Header(w, v) && List(w', v) == List(w, v)
    {
      if v in w.streams {
        assert HeaderInv(w, v, w.streams[v]) && HeaderInv(w, user, h);
      }
    }
  }

  /** A `Subscribe` that gets the lock, and a new array if it needs one, appends to its user's list and
      leaves every other list as it was, whether it writes in place or reallocates. */
  lemma SubscriptionIs(w: World, user: int, stream: int, room: nat, arr: int)
    requires Inv(w) && w.lock.None?
    requires arr !in w.heap || (user in w.streams && w.streams[user].len < |Array(w, w.streams[user].arr)|)
    ensures var w' := Next(w, Subscribe(user, stream, room, arr));
            && w'.lock.None? && w'.pushes == w.pushes && user in w'.streams
            && List(w', user) == List(w, user) + [Holds(stream)]
            && (forall v :: v != user ==> Header(w', v) == Header(w, v) && List(w', v) == List(w, v))
  {
    var w' := Next(w, Subscribe(user, stream, room, arr));
    if user in w.streams { assert HeaderInv(w, user, w.streams[user]); }
    forall v | v != user
      ensures Header(w', v) == Header(w, v) && List(w', v) == List(w, v)
    {
      if v in w.streams { assert HeaderInv(w, v, w.streams[v]); }
    }
  }

  lemma MovedIs(a: seq<Slot>, i: nat, n: nat)
    requires i < n <= |a|
    ensures Moved(a, i, n - 1 - i)[..n] == Without(a[..n], i) + [a[n - 1]]
    ensures Moved(a, i, n - 1 - i)[..n - 1] == Without(a[..n], i)
  {
  }

  lemma RunOne(w: World, s: Step)
    ensures Run(w, [s]) == Next(w, s)
  {
    assert [s][..0] == [];
    RunLast(w, [s]);
  }

  /** What array `arr` holds after a whole `Unsubscribe` of position `i` of `user`: the shift moves the
      slots of the user's list one to the left, and touches no slot behind it and no other array. */
  function ArrayAfter(w: World, user: int, i: nat, arr: int): seq<Slot>
    requires user in w.streams && i < w.streams[user].len <= |Array(w, w.streams[user].arr)|
  {
    var h := w.streams[user];
    if arr == h.arr then Moved(Array(w, arr), i, h.len - 1 - i) else Array(w, arr)
  }

  /** Whatever list the push has copied, and whatever has been appended, reallocated or removed since: its
      remaining sends are its own slots, read after the shift. */
  lemma UnsubscribeDuringPush(w: World, p: int, user: int, stream: int)
    requires Inv(w) && w.lock.None? && p in w.pushes
    requires Find(List(w, user), Holds(stream)) < |List(w, user)|
    ensures var list, s, q := List(w, user), w.pushes[p].slice, w.pushes[p].pos;
            var i := Find(list, Holds(stream));
            && user in w.streams && w.streams[user].len == |list| <= |Array(w, w.streams[user].arr)|
            && q <= s.len <= |ArrayAfter(w, user, i, s.arr)|
            && var w' := Run(w, Removal(user, stream, i, |list|) + Repeat(Send(p), s.len - q));
               && p in w'.pushes && w'.pushes[p].pos == s.len
               && w'.pushes[p].sent == w.pushes[p].sent + ArrayAfter(w, user, i, s.arr)[q..s.len]
  {
    var list, s, q := List(w, user), w.pushes[p].slice, w.pushes[p].pos;
    var i := Find(list, Holds(stream));
    RemovalRuns(w, user, stream);
    SliceFits(w, p);
    RunConcat(w, Removal(user, stream, i, |list|), Repeat(Send(p), s.len - q));
    RestOfPush(w, p, user, i);
  }

  lemma RestOfPush(w: World, p: int, user: int, i: nat)
    requires user in w.streams && i < w.streams[user].len <= |Array(w, w.streams[user].arr)| && p in w.pushes
    requires w.pushes[p].pos <= w.pushes[p].slice.len <= |Array(w, w.pushes[p].slice.arr)|
    ensures var s, q := w.pushes[p].slice, w.pushes[p].pos;
            && s.len <= |ArrayAfter(w, user, i, s.arr)|
            && var w' := Run(Removed(w, user, i), Repeat(Send(p), s.len - q));
               && p in w'.pushes && w'.pushes[p].pos == s.len
               && w'.pushes[p].sent == w.pushes[p].sent + ArrayAfter(w, user, i, s.arr)[q..s.len]
  {
    var s := w.pushes[p].slice;
    assert Array(Removed(w, user, i), s.arr) == ArrayAfter(w, user, i, s.arr);
    SendsRead(Removed(w, user, i), p, s.len - w.pushes[p].pos);
  }

  lemma SliceFits(w: World, p: int)
    requires Inv(w) && p in w.pushes
    ensures w.pushes[p].pos <= w.pushes[p].slice.len <= |Array(w, w.pushes[p].slice.arr)|
  {
    assert PushInv(w, w.pushes[p]);
  }

  // ---- Whom the remaining sends reach ----

  predicate Once(q: seq<Slot>) {
    forall a, b :: 0 <= a < b < |q| ==> q[a] != q[b]
  }

  /** The slots `q` to `len` of an array whose first `n` slots are a list without repetitions, after
      position `i` of that list was shifted out. They repeat a stream exactly if they did before, or if
      they hold both last slots of the list and the shift passed between them. */
  lemma ShiftRepeats(a: seq<Slot>, n: nat, i: nat, q: nat, len: nat)
    requires i < n <= |a| && q <= len <= |a| && Once(a[..n])
    ensures Once(Moved(a, i, n - 1 - i)[q..len]) <==> Once(a[q..len]) && !(i + 1 < n && q + 1 < n <= len)
  {
    var m := Moved(a, i, n - 1 - i);
    if i + 1 < n && q + 1 < n <= len {
      MovedAt(a, n, i, n - 2);
      MovedAt(a, n, i, n - 1);
      assert m[q..len][n - 2 - q] == m[q..len][n - 1 - q];
    } else if i + 1 == n || q + 1 >= n {
      forall x | q <= x < len ensures m[x] == a[x] { MovedAt(a, n, i, x); }
      assert m[q..len] == a[q..len];
    } else {
      ShortOnce(a, n, i, q, len);
    }
  }

  /** Where the slots of an array come from after a whole shift. */
  lemma MovedAt(a: seq<Slot>, n: nat, i: nat, x: nat)
    requires i < n <= |a| && x < |a|
    ensures |Moved(a, i, n - 1 - i)| == |a|
    ensures Moved(a, i, n - 1 - i)[x] == a[if x < i || x >= n - 1 then x else x + 1]
  {
  }

  lemma ShortOnce(a: seq<Slot>, n: nat, i: nat, q: nat, len: nat)
    requires i < n <= |a| && q <= len < n && Once(a[..n])
    ensures Once(Moved(a, i, n - 1 - i)[q..len]) && Once(a[q..len])
  {
    var m := Moved(a, i, n - 1 - i);
    forall x, y | q <= x < y < len
      ensures m[x] != m[y] && a[x] != a[y]
    {
      MovedAt(a, n, i, x);
      MovedAt(a, n, i, y);
      OnceAt(a, n, if x < i then x else x + 1, if y < i then y else y + 1);
      OnceAt(a, n, x, y);
    }
  }

  lemma OnceAt(a: seq<Slot>, n: nat, x: nat, y: nat)
    requires x < y < n <= |a| && Once(a[..n])
    ensures a[x] != a[y]
  {
    assert a[..n][x] != a[..n][y];
  }

  /** A stream still to come is missed exactly if it is the removed one or, when that one was already
      served, the next in turn; unless it is last, for the last slot is read again. */
  lemma ShiftMisses(a: seq<Slot>, n: nat, i: nat, q: nat, len: nat, k: nat)
    requires i < n <= |a| && q <= k < len <= n && Once(a[..n])
    ensures a[k] in Moved(a, i, n - 1 - i)[q..len] <==> k != (if i >= q then i else q) || k == n - 1
  {
    var m := Moved(a, i, n - 1 - i);
    if k != (if i >= q then i else q) || k == n - 1 {
      var at := if k < i || k == n - 1 then k else k - 1;
      MovedAt(a, n, i, at);
      InSlice(m, q, len, at);
    } else {
      forall x | q <= x < len
        ensures m[x] != a[k]
      {
        var from := if x < i || x >= n - 1 then x else x + 1;
        MovedAt(a, n, i, x);
        if from < k { OnceAt(a, n, from, k); } else { OnceAt(a, n, k, from); }
      }
      NotInSlice(m, q, len, a[k]);
    }
  }

  lemma InSlice(m: seq<Slot>, q: nat, len: nat, x: nat)
    requires q <= x < len <= |m|
    ensures m[x] in m[q..len]
  {
    assert m[q..len][x - q] == m[x];
  }

  lemma NotInSlice(m: seq<Slot>, q: nat, len: nat, slot: Slot)
    requires q <= len <= |m| && forall x :: q <= x < len ==> m[x] != slot
    ensures slot !in m[q..len]
  {
  }

  /** For any push and any `Unsubscribe` from a list without repetitions: the remaining sends reach a
      stream twice exactly if they would have without the removal, or if the push reads the array of that
      list, up to its last slot at least, has two sends left on it, and not the last stream left. */
  lemma RemovalRepeats(w: World, p: int, user: int, stream: int)
    requires Inv(w) && w.lock.None? && p in w.pushes && Once(List(w, user))
    requires Find(List(w, user), Holds(stream)) < |List(w, user)|
    ensures var list, s, q := List(w, user), w.pushes[p].slice, w.pushes[p].pos;
            var i := Find(list, Holds(stream));
            && user in w.streams && i < w.streams[user].len == |list| <= |Array(w, w.streams[user].arr)|
            && q <= s.len <= |Array(w, s.arr)| == |ArrayAfter(w, user, i, s.arr)|
            && (Once(ArrayAfter(w, user, i, s.arr)[q..s.len]) <==>
                  Once(Array(w, s.arr)[q..s.len])
                  && !(s.arr == w.streams[user].arr && i + 1 < |list| && q + 1 < |list| <= s.len))
  {
    var list, s := List(w, user), w.pushes[p].slice;
    HeaderIs(w, user, stream);
    SliceFits(w, p);
    if s.arr == w.streams[user].arr {
      ShiftRepeats(Array(w, s.arr), |list|, Find(list, Holds(stream)), w.pushes[p].pos, s.len);
    }
  }

  // ---- A push that reads the list as it is ----

  /** What is left of a push at position `q` over the first `len` streams of `list`, after stream `i` of
      the list left: one is dropped, and what moves up from behind is a stream appended since, if there
      is one, or the last one once more. */
  function Rest(list: seq<Slot>, i: nat, q: nat, len: nat): seq<Slot>
    requires i < |list| && q <= len <= |list|
  {
    var next := if len < |list| then list[len] else list[|list| - 1];
    if q == len || i >= len then list[q..len]
    else if i >= q then list[q..i] + list[i + 1..len] + [next]
    else list[q + 1..len] + [next]
  }

  /** The remaining sends of a push that reads the list's array, streams appended in place included: the
      removed stream is dropped if it was still to come, else the one at the push's position. */
  lemma UnsubscribeFromSnapshot(w: World, p: int, user: int, stream: int)
    requires Inv(w) && w.lock.None? && p in w.pushes && user in w.streams
    requires w.pushes[p].slice.arr == w.streams[user].arr && w.pushes[p].slice.len <= w.streams[user].len
    requires Find(List(w, user), Holds(stream)) < |List(w, user)|
    ensures var list, s, q := List(w, user), w.pushes[p].slice, w.pushes[p].pos;
            var i := Find(list, Holds(stream));
            && q <= s.len <= |list|
            && var w' := Run(w, Removal(user, stream, i, |list|) + Repeat(Send(p), s.len - q));
               && p in w'.pushes && w'.pushes[p].pos == s.len
               && w'.pushes[p].sent == w.pushes[p].sent + Rest(list, i, q, s.len)
  {
    var list, s := List(w, user), w.pushes[p].slice;
    UnsubscribeDuringPush(w, p, user, stream);
    RestIs(Array(w, s.arr), |list|, Find(list, Holds(stream)), w.pushes[p].pos, s.len);
  }

  lemma RestIs(a: seq<Slot>, n: nat, i: nat, q: nat, len: nat)
    requires i < n <= |a| && q <= len <= n
    ensures Moved(a, i, n - 1 - i)[q..len] == Rest(a[..n], i, q, len)
  {
    var m, rest := Moved(a, i, n - 1 - i), Rest(a[..n], i, q, len);
    forall x | q <= x < len
      ensures m[x] == rest[x - q]
    {
      MovedAt(a, n, i, x);
    }
  }

  /** Such a push reaches nobody twice exactly when it does not read the list's last slot, the last stream
      left, or at most one send was left. */
  lemma RestRepeats(list: seq<Slot>, i: nat, q: nat, len: nat)
    requires i < |list| && q <= len <= |list| && Once(list)
    ensures Once(Rest(list, i, q, len)) <==> len < |list| || i == |list| - 1 || q + 1 >= |list|
  {
    assert list[..|list|] == list;
    RestIs(list, |list|, i, q, len);
    ShiftRepeats(list, |list|, i, q, len);
    assert forall a, b :: q <= a < b < len ==> list[q..len][a - q] == list[a] && list[q..len][b - q] == list[b];
  }
}
