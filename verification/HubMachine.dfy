/** The hub as a state machine at the grain of single slots. `Push` copies a slice header under the
    lock and reads the slots without it, so its reads interleave with the writes of `Subscribe` and
    with each move of the shift inside `Unsubscribe`. */
module HubMachine {
  import opened Common
  import opened StreamLists

  datatype Slot = Nil | Holds(stream: int)

  /** A slice header: which backing array, and how many of its slots. */
  datatype Slice = Slice(arr: int, len: nat)

  /** An `Unsubscribe` that holds the lock: the next move copies slot `j + 1` to slot `j`. */
  datatype Shift = Shift(user: int, slice: Slice, j: nat)

  /** A `Push`: the header it copied, how far it has read, and what it has sent. */
  datatype Push = Push(user: int, slice: Slice, pos: nat, sent: seq<Slot>)

  /** `owner` and `ever` are history: the user an array was allocated for, and the streams that were
      ever registered under a user. */
  datatype World = World(
    heap: map<int, seq<Slot>>, streams: map<int, Slice>, lock: Option<Shift>, pushes: map<int, Push>,
    owner: map<int, int>, ever: map<int, set<int>>)

  datatype Step =
    | Subscribe(user: int, stream: int, room: nat, arr: int)
    | Unsubscribe(user: int, stream: int)
    | Move
    | Unlock
    | Snapshot(p: int, user: int)
    | Send(p: int)

  function Init(): World {
    World(map[], map[], None, map[], map[], map[])
  }

  function Header(w: World, user: int): Slice {
    if user in w.streams then w.streams[user] else Slice(0, 0)
  }

  function Array(w: World, arr: int): seq<Slot> {
    if arr in w.heap then w.heap[arr] else []
  }

  function Prefix(a: seq<Slot>, n: nat): seq<Slot> {
    if n <= |a| then a[..n] else a
  }

  function List(w: World, user: int): seq<Slot> {
    Prefix(Array(w, Header(w, user).arr), Header(w, user).len)
  }

  function Ever(w: World, user: int): set<int> {
    if user in w.ever then w.ever[user] else {}
  }

  function Write(w: World, arr: int, k: nat, slot: Slot): World {
    if k < |Array(w, arr)| then w.(heap := w.heap[arr := w.heap[arr][k := slot]]) else w
  }

  function Grown(list: seq<Slot>, slot: Slot, room: nat): seq<Slot> {
    list + [slot] + seq(room, _ => Nil)
  }

  /** One step. Whatever needs the lock waits while a shift holds it: then the step changes nothing. */
  function Next(w: World, s: Step): World {
    match s
    case Subscribe(user, stream, room, arr) =>
      var h := Header(w, user);
      var w' := w.(ever := w.ever[user := Ever(w, user) + {stream}]);
      if w.lock.Some? then w
      else if user in w.streams && h.len < |Array(w, h.arr)| then
        Write(w', h.arr, h.len, Holds(stream)).(streams := w.streams[user := Slice(h.arr, h.len + 1)])
      else if arr in w.heap then w
      else w'.(heap := w.heap[arr := Grown(List(w, user), Holds(stream), room)], owner := w.owner[arr := user],
               streams := w.streams[user := Slice(arr, h.len + 1)])
    case Unsubscribe(user, stream) =>
      var i := Find(List(w, user), Holds(stream));
      if w.lock.Some? || i >= |List(w, user)| then w else w.(lock := Some(Shift(user, Header(w, user), i)))
    case Move =>
      (match w.lock
       case Some(Shift(user, slice, j)) =>
         if j + 1 < slice.len && j + 1 < |Array(w, slice.arr)|
         then Write(w, slice.arr, j, Array(w, slice.arr)[j + 1]).(lock := Some(Shift(user, slice, j + 1)))
         else w
       case None => w)
    case Unlock =>
      (match w.lock
       case Some(Shift(user, slice, j)) =>
         if j + 1 < slice.len then w
         else w.(lock := None, streams := if slice.len <= 1 then w.streams - {user}
                                          else w.streams[user := Slice(slice.arr, slice.len - 1)])
       case None => w)
    case Snapshot(p, user) =>
      if w.lock.Some? || p in w.pushes then w
      else w.(pushes := w.pushes[p := Push(user, Header(w, user), 0, [])])
    case Send(p) =>
      if p !in w.pushes || w.pushes[p].pos >= w.pushes[p].slice.len then w
      else
        var push := w.pushes[p];
        var slots := Array(w, push.slice.arr);
        if push.pos >= |slots| then w
        else w.(pushes := w.pushes[p := push.(pos := push.pos + 1, sent := push.sent + [slots[push.pos]])])
  }

  function Run(w: World, steps: seq<Step>): World
    decreases |steps|, 1
  {
    if steps == [] then w else RunOn(w, steps)
  }

  function RunOn(w: World, steps: seq<Step>): World
    requires steps != []
    decreases |steps|, 0
  {
    Next(Run(w, steps[..|steps| - 1]), steps[|steps| - 1])
  }

  lemma RunLast(w: World, steps: seq<Step>)
    requires steps != []
    ensures Run(w, steps) == Next(Run(w, steps[..|steps| - 1]), steps[|steps| - 1])
  {
    assert Run(w, steps) == RunOn(w, steps);
  }

  // ---- What every step keeps ----

  /** A header of `user`: its array is the user's, and its slots are filled. */
  predicate HeaderInv(w: World, user: int, h: Slice) {
    h.len > 0 ==>
      && h.arr in w.heap && h.arr in w.owner && w.owner[h.arr] == user
      && h.len <= |w.heap[h.arr]|
      && forall k :: 0 <= k < h.len ==> w.heap[h.arr][k] != Nil
  }

  predicate ArrayInv(w: World, arr: int) {
    && arr in w.heap && arr in w.owner
    && forall k :: 0 <= k < |w.heap[arr]| ==> Proper(w, w.owner[arr], w.heap[arr][k])
  }

  predicate Proper(w: World, user: int, slot: Slot) {
    slot.Holds? ==> slot.stream in Ever(w, user)
  }

  predicate PushInv(w: World, push: Push) {
    && HeaderInv(w, push.user, push.slice)
    && push.pos == |push.sent| <= push.slice.len
    && forall k :: 0 <= k < |push.sent| ==> push.sent[k].Holds? && Proper(w, push.user, push.sent[k])
  }

  predicate LockInv(w: World) {
    w.lock.Some? ==>
      var s := w.lock.value;
      s.user in w.streams && w.streams[s.user] == s.slice && s.j < s.slice.len
  }

  predicate Inv(w: World) {
    && (forall u :: u in w.streams ==> w.streams[u].len > 0 && HeaderInv(w, u, w.streams[u]))
    && (forall a :: a in w.heap ==> ArrayInv(w, a))
    && (forall p :: p in w.pushes ==> PushInv(w, w.pushes[p]))
    && LockInv(w)
  }

  /** `w'` is later than `w`: arrays keep owner, length and filled slots; registrations are kept. */
  ghost predicate Later(w: World, w': World) {
    && (forall a :: a in w.heap && a in w.owner ==>
          && a in w'.heap && a in w'.owner && w'.owner[a] == w.owner[a] && |w'.heap[a]| == |w.heap[a]|
          && forall k :: 0 <= k < |w.heap[a]| && w.heap[a][k] != Nil ==> w'.heap[a][k] != Nil)
    && (forall u :: Ever(w, u) <= Ever(w', u))
  }

  lemma SubscribeLater(w: World, s: Step)
    requires s.Subscribe? && (s.user in w.streams ==> HeaderInv(w, s.user, w.streams[s.user]))
    ensures Later(w, Next(w, s))
  {
  }

  lemma MoveLater(w: World)
    requires w.lock.Some? ==> HeaderInv(w, w.lock.value.user, w.lock.value.slice)
    ensures Later(w, Next(w, Move))
  {
  }

  lemma StepLater(w: World, s: Step)
    requires Inv(w)
    ensures Later(w, Next(w, s))
  {
    match s
    case Subscribe(_, _, _, _) => SubscribeLater(w, s);
    case Move => MoveLater(w);
    case _ =>
  }

  lemma HeaderLater(w: World, w': World, user: int, h: Slice)
    requires Later(w, w') && HeaderInv(w, user, h)
    ensures HeaderInv(w', user, h)
  {
  }

  lemma PushLater(w: World, w': World, push: Push)
    requires Later(w, w') && PushInv(w, push)
    ensures PushInv(w', push)
  {
  }

  lemma StepKeeps(w: World, s: Step)
    requires Inv(w)
    ensures Inv(Next(w, s))
  {
    var w' := Next(w, s);
    StepLater(w, s);
    StepKeepsArrays(w, s);
    StepKeepsHeaders(w, s);
    StepKeepsLock(w, s);
    StepKeepsPushes(w, s);
  }

  lemma StepKeepsArrays(w: World, s: Step)
    requires Inv(w)
    ensures forall a :: a in Next(w, s).heap ==> ArrayInv(Next(w, s), a)
  {
    var w' := Next(w, s);
    forall a | a in w'.heap
      ensures ArrayInv(w', a)
    {
      if a in w.heap {
        assert ArrayInv(w, a);
        ArrayKept(w, s, a);
      } else {
        assert forall slot :: slot in List(w, s.user) ==> Proper(w, s.user, slot);
      }
    }
  }

  lemma ArrayKept(w: World, s: Step, a: int)
    requires Inv(w) && a in w.heap && ArrayInv(w, a)
    ensures ArrayInv(Next(w, s), a)
  {
    match s
    case Subscribe(_, _, _, _) =>
    case Move =>
    case _ =>
  }

  lemma StepKeepsLock(w: World, s: Step)
    requires Inv(w)
    ensures LockInv(Next(w, s))
  {
  }

  lemma StepKeepsHeaders(w: World, s: Step)
    requires Inv(w)
    ensures forall u :: u in Next(w, s).streams ==>
              Next(w, s).streams[u].len > 0 && HeaderInv(Next(w, s), u, Next(w, s).streams[u])
  {
    var w' := Next(w, s);
    StepLater(w, s);
    forall u | u in w'.streams
      ensures w'.streams[u].len > 0 && HeaderInv(w', u, w'.streams[u])
    {
      if u in w.streams {
        HeaderLater(w, w', u, w.streams[u]);
        if s.Subscribe? && s.user == u { SubscribedHeader(w, s); }
      } else {
        SubscribedHeader(w, s);
      }
    }
  }

  lemma SubscribedHeader(w: World, s: Step)
    requires Inv(w) && s.Subscribe?
    ensures var w' := Next(w, s); w' != w ==> HeaderInv(w', s.user, Header(w', s.user))
  {
    if s.user in w.streams { assert HeaderInv(w, s.user, w.streams[s.user]); }
  }

  lemma StepKeepsPushes(w: World, s: Step)
    requires Inv(w)
    ensures forall p :: p in Next(w, s).pushes ==> PushInv(Next(w, s), Next(w, s).pushes[p])
  {
    var w' := Next(w, s);
    StepLater(w, s);
    forall p | p in w'.pushes
      ensures PushInv(w', w'.pushes[p])
    {
      if p in w.pushes {
        if s == Send(p) {
          SendKeepsPush(w, p);
        } else {
          PushLater(w, w', w.pushes[p]);
        }
      }
    }
  }

  lemma SendKeepsPush(w: World, p: int)
    requires Inv(w) && p in w.pushes
    ensures PushInv(Next(w, Send(p)), Next(w, Send(p)).pushes[p])
  {
    var h := w.pushes[p].slice;
    assert PushInv(w, w.pushes[p]) && (h.len > 0 ==> ArrayInv(w, h.arr));
  }

  lemma {:induction false} RunKeeps(w: World, steps: seq<Step>)
    requires Inv(w)
    ensures Inv(Run(w, steps))
  {
    if steps != [] {
      var before := steps[..|steps| - 1];
      RunKeeps(w, before);
      RunLast(w, steps);
      StepKeeps(Run(w, before), steps[|steps| - 1]);
    }
  }

  /** In every interleaving a push sends only to streams registered, at some time, under its user. */
  lemma PushStaysWithUser(steps: seq<Step>, p: int, k: nat)
    ensures var w := Run(Init(), steps);
            p in w.pushes && k < |w.pushes[p].sent| ==>
              w.pushes[p].sent[k].Holds? && w.pushes[p].sent[k].stream in Ever(w, w.pushes[p].user)
  {
    RunKeeps(Init(), steps);
    var w := Run(Init(), steps);
    assert p in w.pushes ==> PushInv(w, w.pushes[p]);
  }
}
