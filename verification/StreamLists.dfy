/** What the hub stands for: per user, the list of that user's streams in registration order. */
module StreamLists {

  type Lists<T> = map<int, seq<T>>

  function Of<T>(l: Lists<T>, user: int): seq<T> {
    if user in l then l[user] else []
  }

  function Register<T>(l: Lists<T>, user: int, s: T): Lists<T> {
    l[user := Of(l, user) + [s]]
  }

  /** The position of the first `s`, or the length of `q`. */
  function Find<T(==)>(q: seq<T>, s: T): (i: nat)
    ensures i <= |q| && s !in q[..i] && (i < |q| ==> q[i] == s)
  {
    if q == [] || q[0] == s then 0 else
    var i := 1 + Find(q[1..], s);
    assert q[..i] == [q[0]] + q[1..][..i - 1];
    i
  }

  function Without<T>(q: seq<T>, i: nat): seq<T> {
    if i < |q| then q[..i] + q[i + 1..] else q
  }

  function RemoveFirst<T(==)>(q: seq<T>, s: T): seq<T> {
    Without(q, Find(q, s))
  }

  /** A user without streams has no entry. */
  function Deregister<T(==)>(l: Lists<T>, user: int, s: T): Lists<T> {
    var rest := RemoveFirst(Of(l, user), s);
    if rest == [] then l - {user} else l[user := rest]
  }

  lemma FindIs<T>(q: seq<T>, s: T, i: nat)
    requires i < |q| && q[i] == s && s !in q[..i]
    ensures Find(q, s) == i
  {
    assert q[Find(q, s)] == s || Find(q, s) == |q|;
  }

  lemma FindIn<T>(q: seq<T>, s: T)
    requires s in q
    ensures Find(q, s) < |q|
  {
    assert q[..|q|] == q;
  }

  lemma FindNothing<T>(q: seq<T>, s: T)
    requires s !in q
    ensures Find(q, s) == |q|
  {
  }
}
