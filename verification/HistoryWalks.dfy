/** Walks over a history with distinct timestamps, index by index, and walks during which more messages
    are sent. */
module HistoryWalks {
  import opened Common
  import opened ChatTables
  import opened History

  predicate Descending(h: seq<Message>) {
    forall i, j :: 0 <= i < j < |h| ==> h[i].createdAt > h[j].createdAt
  }

  function Elements(h: seq<Message>): set<Message> {
    set m | m in h
  }

  lemma OlderSuffix(h: seq<Message>, j: nat)
    requires Descending(h) && j < |h|
    ensures Older(Elements(h), Some(h[j].createdAt)) == Elements(h[j + 1..])
  {
    forall m | m in h
      ensures m.createdAt < h[j].createdAt <==> m in h[j + 1..]
    {
      var i :| 0 <= i < |h| && h[i] == m;
      if i > j { assert h[j + 1..][i - j - 1] == m; }
    }
  }

  lemma ElementsCount(h: seq<Message>)
    requires Descending(h)
    ensures |Elements(h)| == |h|
  {
    NoRepeatsSize(h);
  }

  lemma FirstIndex(h: seq<Message>, i: nat)
    requires Descending(h) && i < |h|
    ensures h[0].createdAt >= h[i].createdAt && (h[0].createdAt == h[i].createdAt ==> i == 0)
  {
  }

  lemma FirstIsNewest(h: seq<Message>, limit: nat, r: seq<Message>)
    requires Descending(h) && h != [] && limit > 0 && IsAnswer(Elements(h), limit, r)
    ensures r != [] && r[0] == h[0]
  {
    ElementsCount(h);
    assert h[0] in Elements(h);
    assert r[0] in r;
    var i :| 0 <= i < |h| && h[i] == r[0];
    FirstIndex(h, i);
  }

  /** Distinct timestamps leave only one answer. */
  lemma {:induction false} OnlyAnswer(h: seq<Message>, limit: nat, r: seq<Message>)
    requires Descending(h) && IsAnswer(Elements(h), limit, r)
    ensures r == h[..Min(limit, |h|)]
  {
    ElementsCount(h);
    if h != [] && limit > 0 {
      FirstIsNewest(h, limit, r);
      RestAnswers(h, limit, r);
      OnlyAnswer(h[1..], limit - 1, r[1..]);
    }
  }

  lemma RestAnswers(h: seq<Message>, limit: nat, r: seq<Message>)
    requires Descending(h) && h != [] && limit > 0 && IsAnswer(Elements(h), limit, r) && r != [] && r[0] == h[0]
    ensures Descending(h[1..]) && IsAnswer(Elements(h[1..]), limit - 1, r[1..])
  {
    ElementsCount(h);
    ElementsCount(h[1..]);
    TailMembers(h);
    TailMembers(r);
    assert forall i :: 0 <= i < |r[1..]| ==> r[1..][i] == r[i + 1];
  }

  lemma TailMembers(h: seq<Message>)
    requires NoRepeats(h) && h != []
    ensures forall m :: m in h[1..] <==> m in h && m != h[0]
  {
    forall m | m in h && m != h[0]
      ensures m in h[1..]
    {
      var i :| 0 <= i < |h| && h[i] == m;
      assert h[1..][i - 1] == m;
    }
    forall m | m in h[1..]
      ensures m in h && m != h[0]
    {
      var i :| 0 <= i < |h[1..]| && h[1..][i] == m;
      assert h[i + 1] == m;
    }
  }

  // ---- The walk as coded, index by index ----

  /** Quotient, remainder and product, in the steps in which a walk takes them. */
  function Quot(x: nat, d: nat): nat
    requires d > 0
  {
    if x < d then 0 else Quot(x - d, d) + 1
  }

  function Rem(x: nat, d: nat): nat
    requires d > 0
  {
    if x < d then x else Rem(x - d, d)
  }

  function Times(k: nat, d: nat): nat {
    if k == 0 then 0 else Times(k - 1, d) + d
  }

  lemma {:induction false} TimesIs(k: nat, d: nat)
    ensures Times(k, d) == k * d
  {
    if k > 0 { TimesIs(k - 1, d); }
  }

  lemma {:induction false} QuotRem(x: nat, d: nat)
    requires d > 0
    ensures Times(Quot(x, d), d) + Rem(x, d) == x && Rem(x, d) < d
  {
    if x >= d { QuotRem(x - d, d); }
  }

  lemma QuotIs(x: nat, d: nat)
    requires d > 0
    ensures Quot(x, d) == x / d && Rem(x, d) == x % d
  {
    QuotRem(x, d);
    TimesIs(Quot(x, d), d);
    DivUnique(x, d, Quot(x, d), Rem(x, d));
  }

  lemma DivUnique(x: int, d: int, q: int, r: int)
    requires d > 0 && x == q * d + r && 0 <= r < d
    ensures x / d == q && x % d == r
  {
    var p := x / d - q;
    assert p * d == r - x % d;
    assert -d < p * d < d;
    Squeeze(p, d);
  }

  lemma Squeeze(p: int, d: int)
    requires d > 0 && -d < p * d < d
    ensures p == 0
  {
  }

  /** The cursor of a walk that stands before index `s`. */
  predicate StandsAt(h: seq<Message>, s: nat, cursor: Option<int>) {
    s <= |h| && cursor == if s == 0 then None else Some(h[s - 1].createdAt)
  }

  lemma RowsAhead(h: seq<Message>, s: nat, cursor: Option<int>)
    requires Descending(h) && StandsAt(h, s, cursor)
    ensures Older(Elements(h), cursor) == Elements(h[s..])
  {
    if s == 0 { assert h[0..] == h; } else { OlderSuffix(h, s - 1); }
  }

  lemma NextAnswer(h: seq<Message>, s: nat, cursor: Option<int>, n: nat, f: seq<Message>)
    requires Descending(h) && StandsAt(h, s, cursor) && IsAnswer(Older(Elements(h), cursor), n + 1, f)
    ensures f == h[s..s + Min(n + 1, |h| - s)]
  {
    RowsAhead(h, s, cursor);
    OnlyAnswer(h[s..], n + 1, f);
    assert h[s..][..Min(n + 1, |h| - s)] == h[s..s + Min(n + 1, |h| - s)];
  }

  /** `f` is what there is of the `n` messages from index `at`. */
  predicate IsSlice(h: seq<Message>, at: nat, n: nat, f: seq<Message>) {
    && at <= |h| && |f| == Min(n, |h| - at)
    && forall i :: 0 <= i < |f| ==> f[i] == h[at + i]
  }

  /** The answers a walk from index `s` gets as coded: after each page it skips a message. */
  predicate CodedAnswers(h: seq<Message>, s: nat, n: nat, fs: seq<seq<Message>>)
    decreases |fs|
  {
    && fs != [] && IsSlice(h, s, n + 1, fs[0])
    && if |h| - s <= n then |fs| == 1 else CodedAnswers(h, s + n + 1, n, fs[1..])
  }

  lemma CodedAdvance(h: seq<Message>, s: nat, cursor: Option<int>, n: nat, fs: seq<seq<Message>>)
    returns (next: Option<int>)
    requires n >= 1 && Descending(h) && StandsAt(h, s, cursor) && IsWalk(Elements(h), cursor, n, AsCoded, fs)
    ensures IsSlice(h, s, n + 1, fs[0])
    ensures if |h| - s <= n then |fs| == 1
            else StandsAt(h, s + n + 1, next) && IsWalk(Elements(h), next, n, AsCoded, fs[1..])
  {
    WalkHead(Elements(h), cursor, n, AsCoded, fs);
    WalkTail(Elements(h), cursor, n, AsCoded, fs);
    NextAnswer(h, s, cursor, n, fs[0]);
    next := NextCursor(AsCoded, fs[0], n);
    if |h| - s > n { CodedCursor(h, s, n, fs[0]); }
  }

  lemma {:induction false} CodedWalkIs(h: seq<Message>, s: nat, cursor: Option<int>, n: nat, fs: seq<seq<Message>>)
    requires n >= 1 && Descending(h) && StandsAt(h, s, cursor) && IsWalk(Elements(h), cursor, n, AsCoded, fs)
    ensures CodedAnswers(h, s, n, fs)
    decreases |fs|
  {
    var next := CodedAdvance(h, s, cursor, n, fs);
    if |h| - s > n { CodedWalkIs(h, s + n + 1, next, n, fs[1..]); }
  }

  lemma CodedCursor(h: seq<Message>, s: nat, n: nat, f: seq<Message>)
    requires n >= 1 && s + n < |h| && IsSlice(h, s, n + 1, f)
    ensures NextCursor(AsCoded, f, n) == Some(h[s + n].createdAt)
  {
  }

  lemma SlicePage(h: seq<Message>, s: nat, n: nat, f: seq<Message>)
    requires IsSlice(h, s, n + 1, f)
    ensures IsSlice(h, s, n, Page(f, n))
  {
  }

  lemma {:induction false} CodedPage(h: seq<Message>, s: nat, n: nat, fs: seq<seq<Message>>, k: nat)
    requires CodedAnswers(h, s, n, fs) && k < |fs|
    ensures IsSlice(h, s + Times(k, n + 1), n, Page(fs[k], n))
    decreases k
  {
    if k == 0 {
      SlicePage(h, s, n, fs[0]);
    } else {
      CodedPage(h, s + n + 1, n, fs[1..], k - 1);
    }
  }

  lemma {:induction false} CodedLength(h: seq<Message>, s: nat, n: nat, fs: seq<seq<Message>>)
    requires CodedAnswers(h, s, n, fs)
    ensures |fs| == Quot(|h| - s, n + 1) + 1
    decreases |fs|
  {
    if |h| - s > n { CodedLength(h, s + n + 1, n, fs[1..]); }
  }

  lemma SliceHolds(h: seq<Message>, s: nat, n: nat, f: seq<Message>, j: nat)
    requires Descending(h) && IsSlice(h, s, n, f) && j < |h|
    ensures h[j] in f <==> s <= j < s + n
  {
    if h[j] in f {
      var i :| 0 <= i < |f| && f[i] == h[j];
      assert h[s + i] == h[j];
    }
    if s <= j < s + n { assert f[j - s] == h[j]; }
  }

  /** A message is on the first page, or delivered behind the skipped one. */
  lemma CodedDelivered(h: seq<Message>, s: nat, n: nat, fs: seq<seq<Message>>, j: nat)
    requires Descending(h) && CodedAnswers(h, s, n, fs) && j < |h|
    ensures h[j] in Delivered(fs, n)
       <==> s <= j < s + n || (|h| - s > n && h[j] in Delivered(fs[1..], n))
  {
    SlicePage(h, s, n, fs[0]);
    SliceHolds(h, s, n, Page(fs[0], n), j);
    DeliveredIn(fs, n, h[j]);
  }

  lemma {:induction false} CodedLoss(h: seq<Message>, s: nat, n: nat, fs: seq<seq<Message>>, j: nat)
    requires Descending(h) && CodedAnswers(h, s, n, fs) && j < |h|
    ensures h[j] in Delivered(fs, n) <==> j >= s && Rem(j - s, n + 1) != n
    decreases |fs|
  {
    CodedDelivered(h, s, n, fs, j);
    if |h| - s > n { CodedLoss(h, s + n + 1, n, fs[1..], j); }
  }

  function Skipped(len: nat, d: nat): set<nat>
    requires d > 0
  {
    set j: nat | j < len && Rem(j, d) == d - 1
  }

  lemma {:induction false} LastRem(len: nat, d: nat)
    requires d > 0
    ensures Quot(len + 1, d) == Quot(len, d) + if Rem(len, d) == d - 1 then 1 else 0
  {
    if len >= d { LastRem(len - d, d); }
  }

  lemma {:induction false} SkippedCount(len: nat, d: nat)
    requires d > 0
    ensures |Skipped(len, d)| == Quot(len, d)
  {
    if len > 0 {
      SkippedCount(len - 1, d);
      LastRem(len - 1, d);
      assert Skipped(len, d) == Skipped(len - 1, d) + if Rem(len - 1, d) == d - 1 then {len - 1} else {};
    }
  }

  /** The walk as coded over `n`-message pages of a history with distinct timestamps: page `k` starts at
      index `k * (n + 1)`, and exactly every `n + 1`-th message is never delivered. */
  lemma CodedWalk(h: seq<Message>, n: nat, fs: seq<seq<Message>>)
    requires n >= 1 && Descending(h) && IsWalk(Elements(h), None, n, AsCoded, fs)
    ensures |fs| == |h| / (n + 1) + 1
    ensures forall k: nat :: k < |fs| ==> IsSlice(h, k * (n + 1), n, Page(fs[k], n))
    ensures forall j: nat :: j < |h| ==> (h[j] in Delivered(fs, n) <==> j % (n + 1) != n)
    ensures |Undelivered(h, n, fs)| == |h| / (n + 1)
  {
    CodedWalkIs(h, 0, None, n, fs);
    CodedFacts(h, n, fs);
  }

  lemma CodedFacts(h: seq<Message>, n: nat, fs: seq<seq<Message>>)
    requires Descending(h) && CodedAnswers(h, 0, n, fs)
    ensures |fs| == |h| / (n + 1) + 1
    ensures forall k: nat :: k < |fs| ==> IsSlice(h, k * (n + 1), n, Page(fs[k], n))
    ensures forall j: nat :: j < |h| ==> (h[j] in Delivered(fs, n) <==> j % (n + 1) != n)
    ensures |Undelivered(h, n, fs)| == |h| / (n + 1)
  {
    CodedLength(h, 0, n, fs);
    QuotIs(|h|, n + 1);
    CodedPages(h, n, fs);
    CodedLosses(h, n, fs);
    CodedLossCount(h, n, fs);
  }

  /** The indices of the messages a walk loses. */
  ghost function Undelivered(h: seq<Message>, n: nat, fs: seq<seq<Message>>): set<nat> {
    set j: nat | j < |h| && h[j] !in Delivered(fs, n)
  }

  lemma CodedPages(h: seq<Message>, n: nat, fs: seq<seq<Message>>)
    requires CodedAnswers(h, 0, n, fs)
    ensures forall k: nat :: k < |fs| ==> IsSlice(h, k * (n + 1), n, Page(fs[k], n))
  {
    forall k: nat | k < |fs|
      ensures IsSlice(h, k * (n + 1), n, Page(fs[k], n))
    {
      CodedPage(h, 0, n, fs, k);
      TimesIs(k, n + 1);
    }
  }

  lemma CodedLosses(h: seq<Message>, n: nat, fs: seq<seq<Message>>)
    requires Descending(h) && CodedAnswers(h, 0, n, fs)
    ensures forall j: nat :: j < |h| ==> (h[j] in Delivered(fs, n) <==> j % (n + 1) != n)
  {
    forall j: nat | j < |h|
      ensures h[j] in Delivered(fs, n) <==> j % (n + 1) != n
    {
      CodedLoss(h, 0, n, fs, j);
      QuotIs(j, n + 1);
    }
  }

  lemma CodedLossCount(h: seq<Message>, n: nat, fs: seq<seq<Message>>)
    requires Descending(h) && CodedAnswers(h, 0, n, fs)
    ensures |Undelivered(h, n, fs)| == Quot(|h|, n + 1)
  {
    forall j: nat | j < |h|
      ensures h[j] in Delivered(fs, n) <==> Rem(j, n + 1) != n
    {
      CodedLoss(h, 0, n, fs, j);
    }
    SkippedCount(|h|, n + 1);
    assert Undelivered(h, n, fs) == Skipped(|h|, n + 1);
  }

  /** The same walk with the documented cursor delivers the history itself. */
  lemma DocumentedWalk(h: seq<Message>, n: nat, fs: seq<seq<Message>>)
    requires n >= 1 && Descending(h) && IsWalk(Elements(h), None, n, AsDocumented, fs)
    ensures Delivered(fs, n) == h
  {
    ElementsCount(h);
    DocumentedWalkIsTheHistory(Elements(h), n, fs);
    OnlyAnswer(h, |h|, Delivered(fs, n));
  }

  // ---- Messages sent while a walk goes on ----

  /** `after` has all of `before`, and nothing new in it is older than anything in `before`. */
  predicate Extends(before: set<Message>, after: set<Message>) {
    && before <= after
    && forall x, m :: x in before && m in after && m !in before ==> m.createdAt >= x.createdAt
  }

  predicate Reached(rows: set<Message>, cursor: Option<int>) {
    cursor.Some? ==> exists x :: x in rows && x.createdAt == cursor.value
  }

  /** Behind a cursor that came from a page, nothing ever changes. */
  lemma CursorIsStable(before: set<Message>, after: set<Message>, cursor: Option<int>)
    requires Extends(before, after) && cursor.Some? && Reached(before, cursor)
    ensures Older(after, cursor) == Older(before, cursor)
  {
  }

  /** A walk whose `k`-th page is read from `tables[k]`. */
  ghost predicate IsLiveWalk(
    tables: seq<set<Message>>, cursor: Option<int>, n: nat, rule: Rule, fs: seq<seq<Message>>)
    requires n >= 1
    decreases |fs|
  {
    && fs != [] && |tables| == |fs|
    && IsAnswer(Older(tables[0], cursor), n + 1, fs[0])
    && match NextCursor(rule, fs[0], n)
       case None => |fs| == 1
       case Some(c) => IsLiveWalk(tables[1..], Some(c), n, rule, fs[1..])
  }

  lemma CursorReached(rows: set<Message>, cursor: Option<int>, n: nat, rule: Rule, f: seq<Message>)
    requires n >= 1 && IsAnswer(Older(rows, cursor), n + 1, f)
    ensures Reached(rows, NextCursor(rule, f, n))
  {
    if |f| > n { assert f[n] in f && f[n - 1] in f; }
  }

  lemma {:induction false} LiveWalkFrom(
    base: set<Message>, tables: seq<set<Message>>, cursor: Option<int>, n: nat, rule: Rule, fs: seq<seq<Message>>)
    requires n >= 1 && IsLiveWalk(tables, cursor, n, rule, fs) && cursor.Some? && Reached(base, cursor)
    requires forall t :: t in tables ==> Extends(base, t)
    ensures IsWalk(base, cursor, n, rule, fs)
    decreases |fs|
  {
    CursorIsStable(base, tables[0], cursor);
    CursorReached(base, cursor, n, rule, fs[0]);
    if NextCursor(rule, fs[0], n).Some? {
      LiveWalkFrom(base, tables[1..], NextCursor(rule, fs[0], n), n, rule, fs[1..]);
    }
    assert Proceeds(base, cursor, n, rule, fs);
  }

  /** Messages sent during a walk change none of its later pages: it is a walk over the history as it was
      when its first page was read. */
  lemma LiveWalkIsFrozen(tables: seq<set<Message>>, n: nat, rule: Rule, fs: seq<seq<Message>>)
    requires n >= 1 && IsLiveWalk(tables, None, n, rule, fs)
    requires forall t :: t in tables ==> Extends(tables[0], t)
    ensures IsWalk(tables[0], None, n, rule, fs)
  {
    CursorReached(tables[0], None, n, rule, fs[0]);
    if NextCursor(rule, fs[0], n).Some? {
      LiveWalkFrom(tables[0], tables[1..], NextCursor(rule, fs[0], n), n, rule, fs[1..]);
    }
    assert Proceeds(tables[0], None, n, rule, fs);
  }
}
