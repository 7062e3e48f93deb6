/** The hub under interleaving refines one list per user: its operations take effect one after the other,
    in the order in which they get the lock. */
module HubRefinement {
  import opened Common
  import opened StreamLists
  import opened HubMachine
  import opened HubInterference

  /** What a step does to the lists. An `Unsubscribe` counts from the moment it has the lock. */
  function ListStep(w: World, l: Lists<Slot>, s: Step): Lists<Slot> {
    if Next(w, s) == w then l
    else
      match s
      case Subscribe(user, stream, _, _) => Register(l, user, Holds(stream))
      case Unsubscribe(user, stream) => Deregister(l, user, Holds(stream))
      case _ => l
  }

  /** The operations of a run, in lock order, on lists. */
  function ListRun(steps: seq<Step>): Lists<Slot> {
    if steps == [] then map[]
    else
      var before := steps[..|steps| - 1];
      ListStep(Run(Init(), before), ListRun(before), steps[|steps| - 1])
  }

  /** The list of `user` once the shift that is under way, if it is this user's, has come to its end. */
  function Settled(w: World, user: int): seq<Slot> {
    match w.lock
    case Some(Shift(u, h, j)) =>
      if u == user && j < h.len <= |Array(w, h.arr)| then Array(w, h.arr)[..j] + Array(w, h.arr)[j + 1..h.len]
      else List(w, user)
    case None => List(w, user)
  }

  ghost predicate Refines(w: World, l: Lists<Slot>) {
    forall u :: Of(l, u) == Settled(w, u) && (u in l <==> Settled(w, u) != [])
  }

  lemma SubscribeRefines(w: World, l: Lists<Slot>, s: Step)
    requires Inv(w) && Refines(w, l) && s.Subscribe? && Next(w, s) != w
    ensures Refines(Next(w, s), Register(l, s.user, Holds(s.stream)))
  {
    SubscriptionIs(w, s.user, s.stream, s.room, s.arr);
  }

  lemma UnsubscribeRefines(w: World, l: Lists<Slot>, s: Step)
    requires Inv(w) && Refines(w, l) && s.Unsubscribe? && Next(w, s) != w
    ensures Refines(Next(w, s), Deregister(l, s.user, Holds(s.stream)))
  {
    var h, i := Header(w, s.user), Find(List(w, s.user), Holds(s.stream));
    if s.user in w.streams { assert HeaderInv(w, s.user, h); }
    assert Array(w, h.arr)[i + 1..h.len] == List(w, s.user)[i + 1..];
    assert Settled(Next(w, s), s.user) == RemoveFirst(List(w, s.user), Holds(s.stream));
  }

  lemma MoveRefines(w: World, l: Lists<Slot>)
    requires Inv(w) && Refines(w, l)
    ensures Refines(Next(w, Move), l)
  {
    if Next(w, Move) != w {
      var s := w.lock.value;
      assert HeaderInv(w, s.user, s.slice);
      forall u
        ensures Settled(Next(w, Move), u) == Settled(w, u)
      {
        if u == s.user {
          MoveSettles(w);
        } else {
          if u in w.streams { assert HeaderInv(w, u, w.streams[u]); }
          MoveElsewhere(w, u);
        }
      }
    }
  }

  /** A move leaves the list to which the shift leads. */
  lemma MoveSettles(w: World)
    requires w.lock.Some? && Next(w, Move) != w && w.lock.value.slice.len <= |Array(w, w.lock.value.slice.arr)|
    ensures Settled(Next(w, Move), w.lock.value.user) == Settled(w, w.lock.value.user)
  {
    var s := w.lock.value;
    var a, a' := Array(w, s.slice.arr), Array(Next(w, Move), s.slice.arr);
    assert a' == a[s.j := a[s.j + 1]];
    assert a'[..s.j + 1] + a'[s.j + 2..s.slice.len] == a[..s.j] + a[s.j + 1..s.slice.len];
  }

  lemma MoveElsewhere(w: World, u: int)
    requires w.lock.Some? && u != w.lock.value.user
    requires u in w.streams ==> w.streams[u].arr != w.lock.value.slice.arr
    ensures Settled(Next(w, Move), u) == Settled(w, u)
  {
  }

  lemma UnlockRefines(w: World, l: Lists<Slot>)
    requires Inv(w) && Refines(w, l)
    ensures Refines(Next(w, Unlock), l)
  {
    var w' := Next(w, Unlock);
    if w' != w {
      var s := w.lock.value;
      assert HeaderInv(w, s.user, s.slice);
      assert Settled(w, s.user) == Array(w, s.slice.arr)[..s.slice.len - 1];
      forall u
        ensures Settled(w', u) == Settled(w, u)
      {
      }
    }
  }

  lemma StepRefines(w: World, l: Lists<Slot>, s: Step)
    requires Inv(w) && Refines(w, l)
    ensures Refines(Next(w, s), ListStep(w, l, s))
  {
    if Next(w, s) != w {
      match s
      case Subscribe(_, _, _, _) => SubscribeRefines(w, l, s);
      case Unsubscribe(_, _) => UnsubscribeRefines(w, l, s);
      case Move => MoveRefines(w, l);
      case Unlock => UnlockRefines(w, l);
      case Snapshot(_, _) => PushRefines(w, Next(w, s), l);
      case Send(_) => PushRefines(w, Next(w, s), l);
    }
  }

  lemma PushRefines(w: World, w': World, l: Lists<Slot>)
    requires Refines(w, l) && w'.heap == w.heap && w'.streams == w.streams && w'.lock == w.lock
    ensures Refines(w', l)
  {
    assert forall u :: Settled(w', u) == Settled(w, u);
  }

  lemma {:induction false} RunRefines(steps: seq<Step>)
    ensures Inv(Run(Init(), steps)) && Refines(Run(Init(), steps), ListRun(steps))
  {
    RunKeeps(Init(), steps);
    if steps != [] {
      var before := steps[..|steps| - 1];
      RunRefines(before);
      RunLast(Init(), steps);
      StepRefines(Run(Init(), before), ListRun(before), steps[|steps| - 1]);
    }
  }

  /** In every interleaving, whenever the lock is free, a user's list is what the operations so far make of
      it when they are done one after the other in lock order, and a user has an entry exactly if the list
      is not empty. */
  lemma HubRefinesLists(steps: seq<Step>, user: int)
    ensures var w, l := Run(Init(), steps), ListRun(steps);
            w.lock.None? ==> List(w, user) == Of(l, user) && (user in w.streams <==> user in l)
  {
    RunRefines(steps);
    var w := Run(Init(), steps);
    if w.lock.None? {
      assert Of(ListRun(steps), user) == Settled(w, user);
      if user in w.streams { assert HeaderInv(w, user, w.streams[user]); }
    }
  }
}
