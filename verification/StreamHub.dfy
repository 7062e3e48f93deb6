/** The hub over Go slices: a slice is a backing array and a length, and its capacity is the array's. */
module StreamHub {
  import opened StreamLists

  /** A subscriber's stream. Only its identity matters to the hub. */
  class Stream {
    constructor () {}
  }

  datatype Slice = Slice(arr: array<Stream?>, len: nat)

  datatype Delivery<+S, +M> = Delivery(to: S, msg: M)

  /** Everything sent so far, in order. */
  class Wire<M> {
    var log: seq<Delivery<Stream?, M>>

    constructor ()
      ensures log == []
    {
      log := [];
    }

    method Send(to: Stream?, msg: M)
      modifies this
      ensures log == old(log) + [Delivery(to, msg)]
    {
      log := log + [Delivery(to, msg)];
    }
  }

  /** One message to every stream of a list, in order. */
  function Broadcast<S, M>(list: seq<S>, msg: M): (r: seq<Delivery<S, M>>)
    ensures |r| == |list|
    ensures forall i :: 0 <= i < |r| ==> r[i] == Delivery(list[i], msg)
  {
    seq(|list|, i requires 0 <= i < |list| => Delivery(list[i], msg))
  }

  /** Go's `append` of one element: in place while there is capacity, else in a new array. */
  method Append(slice: Slice, stream: Stream, room: nat) returns (r: Slice)
    requires slice.len <= slice.arr.Length
    modifies slice.arr
    ensures r.len == slice.len + 1 <= r.arr.Length
    ensures r.arr[..r.len] == old(slice.arr[..slice.len]) + [stream]
    ensures slice.len < slice.arr.Length ==> r.arr == slice.arr && r.arr[r.len..] == old(slice.arr[slice.len + 1..])
    ensures slice.len == slice.arr.Length ==> fresh(r.arr) && slice.arr[..] == old(slice.arr[..])
  {
    if slice.len < slice.arr.Length {
      slice.arr[slice.len] := stream;
      return Slice(slice.arr, slice.len + 1);
    }
    var grown := new Stream?[slice.len + 1 + room](_ => null);
    for i := 0 to slice.len
      invariant grown[..i] == slice.arr[..i]
      invariant slice.arr[..] == old(slice.arr[..])
    {
      grown[i] := slice.arr[i];
    }
    grown[slice.len] := stream;
    return Slice(grown, slice.len + 1);
  }

  /** Go's `append(s[:i], s[i+1:]...)`: the tail moves one slot to the left, and the old last slot
      keeps its stream. */
  method ShiftLeft(slice: Slice, i: nat)
    requires i < slice.len <= slice.arr.Length
    modifies slice.arr
    ensures slice.arr[..slice.len - 1] == Without(old(slice.arr[..slice.len]), i)
    ensures slice.arr[slice.len - 1..] == old(slice.arr[slice.len - 1..])
  {
    ghost var was := slice.arr[..];
    var j := i;
    while j + 1 < slice.len
      invariant i <= j < slice.len
      invariant forall k :: i <= k < j ==> slice.arr[k] == was[k + 1]
      invariant forall k :: 0 <= k < i || j <= k < slice.arr.Length ==> slice.arr[k] == was[k]
    {
      slice.arr[j] := slice.arr[j + 1];
      j := j + 1;
    }
  }

  /** The position of the first `stream` in a slice, or its length. */
  method Locate(slice: Slice, stream: Stream) returns (i: nat)
    requires slice.len <= slice.arr.Length
    ensures i == Find(slice.arr[..slice.len], stream)
  {
    ghost var list := slice.arr[..slice.len];
    i := 0;
    while i < slice.len && slice.arr[i] != stream
      invariant i <= slice.len && stream !in list[..i]
    {
      i := i + 1;
    }
    if i < slice.len {
      FindIs(list, stream, i);
    } else {
      FindNothing(list, stream);
    }
  }

  ghost predicate Holds(slice: Slice, list: seq<Stream?>)
    reads slice.arr
  {
    0 < slice.len <= slice.arr.Length && slice.arr[..slice.len] == list && null !in list
  }

  lemma Shortened(list: seq<Stream?>, i: nat)
    requires i < |list| && null !in list
    ensures null !in Without(list, i) && |Without(list, i)| == |list| - 1
  {
  }

  class Hub {
    var streams: map<int, Slice>
    ghost var lists: Lists<Stream?>

    ghost function Arrays(): set<object>
      reads this
    {
      set user | user in streams :: streams[user].arr
    }

    /** `lists` is what the slices hold. No list is empty, no slot of a list is nil, and no two users
        share a backing array. */
    ghost predicate Valid()
      reads this, Arrays()
    {
      && lists.Keys == streams.Keys
      && (forall u :: u in streams ==> Holds(streams[u], lists[u]))
      && (forall u, v :: u in streams && v in streams && u != v ==> streams[u].arr != streams[v].arr)
    }

    constructor ()
      ensures Valid() && lists == map[]
    {
      streams, lists := map[], map[];
    }

    /** `room` is the spare capacity the runtime adds when the slice has to grow. */
    method Subscribe(user: int, stream: Stream, room: nat)
      requires Valid()
      modifies this, Arrays()
      ensures Valid() && fresh(Arrays() - old(Arrays()))
      ensures lists == Register(old(lists), user, stream)
    {
      var slice;
      if user in streams {
        slice := streams[user];
      } else {
        var empty := new Stream?[0];
        slice := Slice(empty, 0);
      }
      slice := Append(slice, stream, room);
      streams := streams[user := slice];
      lists := Register(lists, user, stream);
    }

    method Unsubscribe(user: int, stream: Stream)
      requires Valid()
      modifies this, Arrays()
      ensures Valid() && Arrays() <= old(Arrays())
      ensures lists == Deregister(old(lists), user, stream)
    {
      if user !in streams {
        return;
      }
      var slice := streams[user];
      var i := Locate(slice, stream);
      if i < slice.len {
        RemoveAt(user, i, stream);
      }
    }

    /** Close the gap at position `i`, and drop the entry when nothing is left. */
    method RemoveAt(user: int, i: nat, ghost stream: Stream)
      requires Valid() && user in streams && i < streams[user].len && i == Find(lists[user], stream)
      modifies this, streams[user].arr
      ensures Valid() && Arrays() <= old(Arrays())
      ensures lists == Deregister(old(lists), user, stream)
    {
      var slice := streams[user];
      ghost var rest := Without(lists[user], i);
      Shortened(lists[user], i);
      assert slice.arr[..slice.len] == lists[user];
      ShiftLeft(slice, i);
      assert slice.arr[..slice.len - 1] == rest;
      if slice.len == 1 {
        streams, lists := streams - {user}, lists - {user};
      } else {
        streams, lists := streams[user := Slice(slice.arr, slice.len - 1)], lists[user := rest];
      }
    }

    /** The list is taken at the start; what happens to the hub afterwards is another module's matter. */
    method Push<M>(user: int, msg: M, wire: Wire<M>)
      requires Valid() && wire as object != this && wire as object !in Arrays()
      modifies wire
      ensures wire.log == old(wire.log) + Broadcast(Of(lists, user), msg)
    {
      if user !in streams {
        return;
      }
      var slice := streams[user];
      ghost var list := slice.arr[..slice.len];
      for i := 0 to slice.len
        invariant wire.log == old(wire.log) + Broadcast(list, msg)[..i]
        invariant slice.arr[..slice.len] == list
      {
        wire.Send(slice.arr[i], msg);
      }
    }
  }
}
