/** The `Subscribe` handler: each registers its stream, waits, and removes it once. */
module Registration {
  import opened Common
  import opened StreamLists
  import opened StreamHub

  /** A handler that is waiting for its client to go away. */
  datatype Handler<+T> = Handler(user: int, stream: T)

  function StreamsOf<T>(live: seq<Handler<T>>, user: int): seq<T> {
    if live == [] then []
    else StreamsOf(live[..|live| - 1], user) + Own(live[|live| - 1], user)
  }

  function Own<T>(h: Handler<T>, user: int): seq<T> {
    if h.user == user then [h.stream] else []
  }

  /** The lists hold exactly the live handlers' streams, in registration order, and no empty entry. */
  ghost predicate Grouped<T>(l: Lists<T>, live: seq<Handler<T>>) {
    forall u :: Of(l, u) == StreamsOf(live, u) && (u in l <==> StreamsOf(live, u) != [])
  }

  predicate Distinct<T(==)>(live: seq<Handler<T>>) {
    forall i, j :: 0 <= i < j < |live| ==> live[i].stream != live[j].stream
  }

  ghost predicate Consistent<T>(l: Lists<T>, live: seq<Handler<T>>) {
    Distinct(live) && Grouped(l, live)
  }

  lemma RegisterKeeps<T>(l: Lists<T>, live: seq<Handler<T>>, user: int, s: T)
    requires Consistent(l, live) && forall h :: h in live ==> h.stream != s
    ensures Consistent(Register(l, user, s), live + [Handler(user, s)])
  {
    DistinctMore(live, Handler(user, s));
    GroupedMore(l, live, user, s);
  }

  lemma DistinctMore<T>(live: seq<Handler<T>>, h: Handler<T>)
    requires Distinct(live) && forall g :: g in live ==> g.stream != h.stream
    ensures Distinct(live + [h])
  {
  }

  lemma GroupedMore<T>(l: Lists<T>, live: seq<Handler<T>>, user: int, s: T)
    requires Grouped(l, live)
    ensures Grouped(Register(l, user, s), live + [Handler(user, s)])
  {
    var live' := live + [Handler(user, s)];
    assert live'[..|live'| - 1] == live;
  }

  lemma {:induction false} StreamsIn<T>(live: seq<Handler<T>>, user: int, s: T)
    ensures s in StreamsOf(live, user) <==> Handler(user, s) in live
  {
    if live != [] {
      var before, last := live[..|live| - 1], live[|live| - 1];
      StreamsIn(before, user, s);
      assert live == before + [last];
    }
  }

  lemma RemoveFromFront<T>(q: seq<T>, t: seq<T>, s: T)
    requires s in q
    ensures RemoveFirst(q + t, s) == RemoveFirst(q, s) + t
  {
    var i := Find(q, s);
    FindIn(q, s);
    assert (q + t)[..i] == q[..i];
    FindIs(q + t, s, i);
  }

  lemma RemoveLast<T>(q: seq<T>, s: T)
    requires s !in q
    ensures RemoveFirst(q + [s], s) == q
  {
    assert (q + [s])[..|q|] == q;
    FindIs(q + [s], s, |q|);
  }

  /** Removing one handler removes its stream's first occurrence from its user's list, and nothing else. */
  lemma {:induction false} HandlerGone<T>(live: seq<Handler<T>>, k: nat, user: int)
    requires k < |live| && Distinct(live)
    ensures StreamsOf(Without(live, k), user) ==
              if live[k].user == user then RemoveFirst(StreamsOf(live, user), live[k].stream)
              else StreamsOf(live, user)
  {
    var n := |live|;
    var before, s := live[..n - 1], live[k].stream;
    if k == n - 1 {
      assert Without(live, k) == before;
      StreamsIn(before, user, s);
      RemoveLast(StreamsOf(before, user), s);
    } else {
      HandlerGone(before, k, user);
      WithoutLast(live, k, user);
      if live[k].user == user {
        assert before[k] == Handler(user, s);
        StreamsIn(before, user, s);
        RemoveFromFront(StreamsOf(before, user), Own(live[n - 1], user), s);
      }
    }
  }

  lemma WithoutLast<T>(live: seq<Handler<T>>, k: nat, user: int)
    requires k + 1 < |live|
    ensures StreamsOf(Without(live, k), user)
         == StreamsOf(Without(live[..|live| - 1], k), user) + Own(live[|live| - 1], user)
  {
    var rest := Without(live, k);
    assert rest[..|rest| - 1] == Without(live[..|live| - 1], k);
    assert rest[|rest| - 1] == live[|live| - 1];
  }

  lemma DeregisterKeeps<T>(l: Lists<T>, live: seq<Handler<T>>, k: nat, user: int, s: T)
    returns (l': Lists<T>, live': seq<Handler<T>>)
    requires Consistent(l, live) && k < |live| && live[k] == Handler(user, s)
    ensures l' == Deregister(l, user, s) && live' == Without(live, k)
    ensures Consistent(l', live')
  {
    l', live' := Deregister(l, user, s), Without(live, k);
    DistinctLess(live, k);
    GroupedLess(l, live, k);
  }

  lemma DistinctLess<T>(live: seq<Handler<T>>, k: nat)
    requires Distinct(live) && k < |live|
    ensures Distinct(Without(live, k))
  {
  }

  lemma GroupedLess<T>(l: Lists<T>, live: seq<Handler<T>>, k: nat)
    requires Grouped(l, live) && Distinct(live) && k < |live|
    ensures Grouped(Deregister(l, live[k].user, live[k].stream), Without(live, k))
  {
    var l' := Deregister(l, live[k].user, live[k].stream);
    forall u
      ensures Of(l', u) == StreamsOf(Without(live, k), u) && (u in l' <==> StreamsOf(Without(live, k), u) != [])
    {
      HandlerGone(live, k, u);
    }
  }

  lemma OnlyLiveUsers<T>(l: Lists<T>, live: seq<Handler<T>>, user: int)
    requires Grouped(l, live)
    ensures Of(l, user) == StreamsOf(live, user)
    ensures user in l <==> exists h :: h in live && h.user == user
    ensures live == [] ==> forall u :: u !in l
  {
    if user in l {
      var s := StreamsOf(live, user)[0];
      StreamsIn(live, user, s);
    }
    if h :| h in live && h.user == user { StreamsIn(live, user, h.stream); }
  }

  class Server {
    const hub: Hub

    /** The handlers that are waiting, in the order they registered. */
    ghost var live: seq<Handler<Stream?>>

    ghost predicate Valid()
      reads this, hub, hub.Arrays()
    {
      hub.Valid() && Consistent(hub.lists, live)
    }

    constructor ()
      ensures Valid() && live == [] && fresh(hub)
    {
      hub := new Hub();
      live := [];
    }

    /** The handler up to its wait. Without an authenticated user it ends there. */
    method SubscribeBegin(userId: Option<int>, stream: Stream, room: nat) returns (r: Result<()>)
      requires Valid() && forall h :: h in live ==> h.stream != stream
      modifies this, hub, hub.Arrays()
      ensures Valid()
      ensures userId.None? ==> r == Err(Unauthenticated) && live == old(live) && hub.lists == old(hub.lists)
      ensures userId.Some? ==> r == Ok(()) && live == old(live) + [Handler(userId.value, stream)]
                               && hub.lists == Register(old(hub.lists), userId.value, stream)
    {
      if userId.None? {
        return Err(Unauthenticated);
      }
      var started: Handler<Stream?> := Handler(userId.value, stream);
      RegisterKeeps(hub.lists, live, started.user, started.stream);
      hub.Subscribe(userId.value, stream, room);
      live := live + [started];
      return Ok(());
    }

    /** The deferred removal, once the client has gone away. */
    method SubscribeEnd(user: int, stream: Stream, ghost k: nat)
      requires Valid() && k < |live| && live[k].user == user && live[k].stream == stream
      modifies this, hub, hub.Arrays()
      ensures Valid() && live == Without(old(live), k) && hub.lists == Deregister(old(hub.lists), user, stream)
    {
      ghost var lists, rest := DeregisterKeeps(hub.lists, live, k, user, stream);
      hub.Unsubscribe(user, stream);
      live := rest;
    }
  }
}
