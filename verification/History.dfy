/** Reading a chat's history page by page: what a walk delivers, what it loses, and why it ends. */
module History {
  import opened Common
  import opened ChatTables

  const LARGEST_LIMIT := 100
  const DEFAULT_LIMIT := 50

  /** The page size the service settles on. */
  function PageSize(limit: int): (n: nat)
    ensures 1 <= limit <= 100 ==> n == limit
    ensures !(1 <= limit <= 100) ==> n == 50
  {
    if limit <= 0 || limit > LARGEST_LIMIT then DEFAULT_LIMIT else limit
  }

  /** Which message of a full answer gives the next cursor: the first one not returned, as coded, or
      the last one returned, as the protocol file documents it. */
  datatype Rule = AsCoded | AsDocumented

  function Older(rows: set<Message>, cursor: Option<int>): set<Message> {
    set m | m in rows && (cursor.Some? ==> m.createdAt < cursor.value)
  }

  function Rows(db: Db, chat: int): set<Message> {
    set m | m in db.messages && m.chatId == chat
  }

  predicate Sorted(r: seq<Message>) {
    forall i, j :: 0 <= i < j < |r| ==> r[i].createdAt >= r[j].createdAt
  }

  predicate NoRepeats(r: seq<Message>) {
    forall i, j :: 0 <= i < j < |r| ==> r[i] != r[j]
  }

  predicate Distinct(rows: set<Message>) {
    forall a, b :: a in rows && b in rows && a.createdAt == b.createdAt ==> a == b
  }

  function Min(a: nat, b: nat): nat { if a < b then a else b }

  /** `r` is an answer to a query for the newest `limit` of `rows`. The query leaves the order of equal
      timestamps open, so there may be several. */
  ghost predicate IsAnswer(rows: set<Message>, limit: nat, r: seq<Message>) {
    && |r| == Min(limit, |rows|)
    && NoRepeats(r)
    && Sorted(r)
    && (forall m :: m in r ==> m in rows)
    && (r != [] ==> forall m :: m in rows && m !in r ==> r[|r| - 1].createdAt >= m.createdAt)
  }

  /** What a caller gets of an answer, which holds one message more if there are more. */
  function Page(f: seq<Message>, n: nat): seq<Message> {
    f[..Min(n, |f|)]
  }

  function NextCursor(rule: Rule, f: seq<Message>, n: nat): Option<int>
    requires n >= 1
  {
    if |f| <= n then None
    else if rule == AsCoded then Some(f[n].createdAt)
    else Some(f[n - 1].createdAt)
  }

  /** A page and its cursor are what the rule makes of some answer to the query. */
  ghost predicate IsPage(rows: set<Message>, cursor: Option<int>, n: nat, page: seq<Message>, next: Option<int>)
    requires n >= 1
  {
    exists f :: IsAnswer(Older(rows, cursor), n + 1, f) && page == Page(f, n) && next == NextCursor(AsCoded, f, n)
  }

  /** `fs` are the answers of a walk from `cursor` to the last page. */
  ghost predicate IsWalk(rows: set<Message>, cursor: Option<int>, n: nat, rule: Rule, fs: seq<seq<Message>>)
    requires n >= 1
    decreases |fs|, 1
  {
    fs != [] && Proceeds(rows, cursor, n, rule, fs)
  }

  ghost predicate Proceeds(rows: set<Message>, cursor: Option<int>, n: nat, rule: Rule, fs: seq<seq<Message>>)
    requires n >= 1 && fs != []
    decreases |fs|, 0
  {
    && IsAnswer(Older(rows, cursor), n + 1, fs[0])
    && match NextCursor(rule, fs[0], n)
       case None => |fs| == 1
       case Some(c) => IsWalk(rows, Some(c), n, rule, fs[1..])
  }

  lemma WalkHead(rows: set<Message>, cursor: Option<int>, n: nat, rule: Rule, fs: seq<seq<Message>>)
    requires n >= 1 && IsWalk(rows, cursor, n, rule, fs)
    ensures IsAnswer(Older(rows, cursor), n + 1, fs[0])
  {
    assert Proceeds(rows, cursor, n, rule, fs);
  }

  lemma WalkTail(rows: set<Message>, cursor: Option<int>, n: nat, rule: Rule, fs: seq<seq<Message>>)
    requires n >= 1 && IsWalk(rows, cursor, n, rule, fs)
    ensures match NextCursor(rule, fs[0], n)
            case None => |fs| == 1
            case Some(c) => IsWalk(rows, Some(c), n, rule, fs[1..])
  {
    assert Proceeds(rows, cursor, n, rule, fs);
  }

  function Delivered(fs: seq<seq<Message>>, n: nat): seq<Message> {
    if fs == [] then [] else Page(fs[0], n) + Delivered(fs[1..], n)
  }

  // ---- Answers ----

  lemma {:induction false} NoRepeatsSize(r: seq<Message>)
    requires NoRepeats(r)
    ensures |set m | m in r| == |r|
  {
    if r != [] {
      var init := r[..|r| - 1];
      NoRepeatsSize(init);
      assert (set m | m in r) == (set m | m in init) + {r[|r| - 1]};
      assert r[|r| - 1] !in init;
    }
  }

  lemma SubsetFills<T>(a: set<T>, b: set<T>)
    requires a <= b && |a| >= |b|
    ensures a == b
  {
    assert b == a + (b - a);
  }

  /** An answer with room to spare holds every row. */
  lemma ShortAnswerIsAll(rows: set<Message>, limit: nat, r: seq<Message>)
    requires IsAnswer(rows, limit, r) && |r| < limit
    ensures forall m :: m in rows <==> m in r
  {
    NoRepeatsSize(r);
    SubsetFills((set m | m in r), rows);
    assert (set m | m in r) == rows;
  }

  /** An answer to a chat's query holds stored messages of that chat, older than the cursor if there is one,
      newest first; what it leaves out is left out for want of room, and is no newer than its last message. */
  lemma AnswerMeans(db: Db, chat: int, cursor: Option<int>, limit: nat, r: seq<Message>)
    requires IsAnswer(Older(Rows(db, chat), cursor), limit, r)
    ensures |r| <= limit
    ensures forall m :: m in r ==> m in db.messages && m.chatId == chat && (cursor.Some? ==> m.createdAt < cursor.value)
    ensures forall m :: m in db.messages && m.chatId == chat && (cursor.Some? ==> m.createdAt < cursor.value) && m !in r ==>
              |r| == limit && (r != [] ==> m.createdAt <= r[|r| - 1].createdAt)
    ensures forall i, j :: 0 <= i < j < |r| ==> r[i] != r[j] && r[i].createdAt >= r[j].createdAt
  {
    var rows := Older(Rows(db, chat), cursor);
    if |r| < limit { ShortAnswerIsAll(rows, limit, r); }
    forall m | m in db.messages && m.chatId == chat && (cursor.Some? ==> m.createdAt < cursor.value)
      ensures m in rows
    {
      assert m in Rows(db, chat);
    }
  }

  /** The same for a page; its cursor is the newest timestamp of what it leaves out, and is there exactly if it
      leaves something out. */
  lemma PageMeans(db: Db, chat: int, cursor: Option<int>, n: nat, page: seq<Message>, next: Option<int>)
    requires n >= 1 && IsPage(Rows(db, chat), cursor, n, page, next)
    ensures |page| <= n
    ensures forall m :: m in page ==> m in db.messages && m.chatId == chat && (cursor.Some? ==> m.createdAt < cursor.value)
    ensures forall m :: m in db.messages && m.chatId == chat && (cursor.Some? ==> m.createdAt < cursor.value) && m !in page ==>
              |page| == n && m.createdAt <= page[n - 1].createdAt && next.Some? && m.createdAt <= next.value
    ensures next.Some? ==>
              exists m :: m in db.messages && m.chatId == chat && (cursor.Some? ==> m.createdAt < cursor.value)
                          && m !in page && m.createdAt == next.value
    ensures NoRepeats(page) && Sorted(page)
  {
    var f :| IsAnswer(Older(Rows(db, chat), cursor), n + 1, f) && page == Page(f, n) && next == NextCursor(AsCoded, f, n);
    AnswerMeans(db, chat, cursor, n + 1, f);
    if |f| > n {
      CutPage(f, n, page);
    } else {
      assert page == f;
    }
  }

  lemma CutPage(f: seq<Message>, n: nat, page: seq<Message>)
    requires 1 <= n < |f| == n + 1 && page == f[..n]
    requires NoRepeats(f) && Sorted(f)
    ensures NoRepeats(page) && Sorted(page)
    ensures forall m :: m in f && m !in page ==> m == f[n]
    ensures f[n] in f && f[n] !in page && page[n - 1].createdAt >= f[n].createdAt
  {
    assert f == page + [f[n]];
  }

  /** A newest row, by search. */
  ghost function Newest(rows: set<Message>): (m: Message)
    requires rows != {}
    ensures m in rows && forall x :: x in rows ==> x.createdAt <= m.createdAt
    decreases |rows|
  {
    var a :| a in rows;
    if rows == {a} then a
    else
      var b := Newest(rows - {a});
      assert forall x :: x in rows ==> x == a || x in rows - {a};
      if a.createdAt >= b.createdAt then a else b
  }

  /** Taking the newest row first and answering for the rest answers for all. */
  lemma AnswerStep(rows: set<Message>, limit: nat, first: Message, rest: seq<Message>)
    requires first in rows && forall x :: x in rows ==> x.createdAt <= first.createdAt
    requires IsAnswer(rows - {first}, limit, rest)
    ensures IsAnswer(rows, limit + 1, [first] + rest)
  {
    assert |rows - {first}| == |rows| - 1;
    FirstKeepsOrder(first, rest);
    FirstKeepsRest(rows, limit, first, rest);
  }

  lemma FirstKeepsOrder(first: Message, rest: seq<Message>)
    requires Sorted(rest) && NoRepeats(rest) && first !in rest
    requires forall x :: x in rest ==> x.createdAt <= first.createdAt
    ensures Sorted([first] + rest) && NoRepeats([first] + rest)
  {
    var r := [first] + rest;
    forall i, j | 0 <= i < j < |r|
      ensures r[i] != r[j] && r[i].createdAt >= r[j].createdAt
    {
      assert r[j] == rest[j - 1] && rest[j - 1] in rest;
      if i > 0 { assert r[i] == rest[i - 1]; }
    }
  }

  lemma FirstKeepsRest(rows: set<Message>, limit: nat, first: Message, rest: seq<Message>)
    requires first in rows && forall x :: x in rows ==> x.createdAt <= first.createdAt
    requires IsAnswer(rows - {first}, limit, rest)
    ensures var r := [first] + rest;
            (forall m :: m in r ==> m in rows)
            && forall m :: m in rows && m !in r ==> r[|r| - 1].createdAt >= m.createdAt
  {
    var r := [first] + rest;
    assert rest != [] ==> r[|r| - 1] == rest[|rest| - 1];
    forall m | m in rows && m !in r
      ensures r[|r| - 1].createdAt >= m.createdAt
    {
      assert r[0] == first && m != first;
      assert m !in rest;
    }
  }

  lemma {:induction false} AnswerExists(rows: set<Message>, limit: nat) returns (r: seq<Message>)
    ensures IsAnswer(rows, limit, r)
  {
    if limit == 0 || rows == {} {
      r := [];
    } else {
      var m := Newest(rows);
      var rest := AnswerExists(rows - {m}, limit - 1);
      AnswerStep(rows, limit - 1, m, rest);
      r := [m] + rest;
    }
  }

  // ---- A walk ends ----

  /** Every page leaves strictly fewer messages to be read. */
  lemma CursorAdvances(rows: set<Message>, cursor: Option<int>, n: nat, rule: Rule, f: seq<Message>)
    requires n >= 1 && IsAnswer(Older(rows, cursor), n + 1, f) && NextCursor(rule, f, n).Some?
    ensures Older(rows, NextCursor(rule, f, n)) < Older(rows, cursor)
    ensures |Older(rows, NextCursor(rule, f, n))| < |Older(rows, cursor)|
  {
    var c := NextCursor(rule, f, n);
    assert f[n] in f && f[n - 1] in f;
    var at := if rule == AsCoded then f[n] else f[n - 1];
    assert at in Older(rows, cursor) && at !in Older(rows, c);
    assert Older(rows, c) <= Older(rows, cursor);
    Smaller(Older(rows, c), Older(rows, cursor));
  }

  lemma Smaller<T>(a: set<T>, b: set<T>)
    requires a < b
    ensures |a| < |b|
  {
    assert b == a + (b - a);
    assert b - a != {};
  }

  /** However the ties are answered, a walk can always be carried to its last page. */
  lemma {:induction false} WalksEnd(rows: set<Message>, cursor: Option<int>, n: nat, rule: Rule)
    returns (fs: seq<seq<Message>>)
    requires n >= 1
    ensures IsWalk(rows, cursor, n, rule, fs)
    ensures |fs| <= |Older(rows, cursor)| + 1
    decreases |Older(rows, cursor)|
  {
    var f := AnswerExists(Older(rows, cursor), n + 1);
    match NextCursor(rule, f, n) {
      case None =>
        fs := [f];
      case Some(c) =>
        CursorAdvances(rows, cursor, n, rule, f);
        var more := WalksEnd(rows, Some(c), n, rule);
        fs := [f] + more;
        assert fs[1..] == more;
    }
    assert Proceeds(rows, cursor, n, rule, fs);
  }

  /** No walk is longer than that, whichever answers it gets. */
  lemma {:induction false} WalkLength(rows: set<Message>, cursor: Option<int>, n: nat, rule: Rule, fs: seq<seq<Message>>)
    requires n >= 1 && IsWalk(rows, cursor, n, rule, fs)
    ensures |fs| <= |Older(rows, cursor)| + 1
    decreases |fs|
  {
    WalkTail(rows, cursor, n, rule, fs);
    if NextCursor(rule, fs[0], n).Some? {
      WalkHead(rows, cursor, n, rule, fs);
      CursorAdvances(rows, cursor, n, rule, fs[0]);
      WalkLength(rows, NextCursor(rule, fs[0], n), n, rule, fs[1..]);
    }
  }

  // ---- What a walk delivers ----

  lemma PageAbove(rows: set<Message>, cursor: Option<int>, n: nat, rule: Rule, f: seq<Message>)
    requires n >= 1 && IsAnswer(Older(rows, cursor), n + 1, f)
    ensures forall m :: m in Page(f, n) ==> m in Older(rows, cursor)
    ensures NoRepeats(Page(f, n)) && Sorted(Page(f, n))
    ensures var c := NextCursor(rule, f, n);
            c.Some? ==> (forall m :: m in Page(f, n) ==> m.createdAt >= c.value)
                        && (forall m :: m in Older(rows, c) ==> m in Older(rows, cursor))
  {
    var c := NextCursor(rule, f, n);
    if c.Some? { assert f[n] in f && f[n - 1] in f; }
  }

  lemma FirstPage(rows: set<Message>, cursor: Option<int>, n: nat, rule: Rule, fs: seq<seq<Message>>)
    requires n >= 1 && IsWalk(rows, cursor, n, rule, fs)
    ensures forall m :: m in Page(fs[0], n) ==> m in Older(rows, cursor)
    ensures NoRepeats(Page(fs[0], n)) && Sorted(Page(fs[0], n))
    ensures var c := NextCursor(rule, fs[0], n);
            c.Some? ==> (forall m :: m in Page(fs[0], n) ==> m.createdAt >= c.value)
                        && (forall m :: m in Older(rows, c) ==> m in Older(rows, cursor))
  {
    WalkHead(rows, cursor, n, rule, fs);
    PageAbove(rows, cursor, n, rule, fs[0]);
  }

  lemma AppendSorted(p: seq<Message>, q: seq<Message>, c: int)
    requires NoRepeats(p) && Sorted(p) && NoRepeats(q) && Sorted(q)
    requires (forall m :: m in p ==> m.createdAt >= c) && (forall m :: m in q ==> m.createdAt < c)
    ensures NoRepeats(p + q) && Sorted(p + q)
  {
    forall i, j | 0 <= i < j < |p + q|
      ensures (p + q)[i] != (p + q)[j] && (p + q)[i].createdAt >= (p + q)[j].createdAt
    {
      if i < |p| <= j { assert p[i] in p && q[j - |p|] in q; }
    }
  }

  /** Under either rule a walk goes from new to old and delivers no message twice. */
  lemma {:induction false} DeliveredOnceInOrder(
    rows: set<Message>, cursor: Option<int>, n: nat, rule: Rule, fs: seq<seq<Message>>)
    requires n >= 1 && IsWalk(rows, cursor, n, rule, fs)
    ensures NoRepeats(Delivered(fs, n)) && Sorted(Delivered(fs, n))
    ensures forall m :: m in Delivered(fs, n) ==> m in Older(rows, cursor)
    decreases |fs|
  {
    FirstPage(rows, cursor, n, rule, fs);
    WalkTail(rows, cursor, n, rule, fs);
    match NextCursor(rule, fs[0], n) {
      case None =>
        assert Delivered(fs[1..], n) == [];
      case Some(c) =>
        DeliveredOnceInOrder(rows, Some(c), n, rule, fs[1..]);
        AppendSorted(Page(fs[0], n), Delivered(fs[1..], n), c);
    }
  }

  // ---- What a walk loses ----

  /** `m` has the timestamp at which page `k` was cut, but is not on that page. */
  predicate CutOff(rule: Rule, fs: seq<seq<Message>>, k: nat, n: nat, m: Message)
    requires n >= 1 && k < |fs|
  {
    NextCursor(rule, fs[k], n) == Some(m.createdAt) && m !in Page(fs[k], n)
  }

  ghost predicate CutSomewhere(rule: Rule, fs: seq<seq<Message>>, n: nat, m: Message)
    requires n >= 1
  {
    exists k: nat :: k < |fs| && CutOff(rule, fs, k, n, m)
  }

  /** A message that is not on a page that is not the last is not newer than the cursor. */
  lemma LeftoverIsOlder(rows: set<Message>, cursor: Option<int>, n: nat, rule: Rule, fs: seq<seq<Message>>, m: Message)
    requires n >= 1 && IsWalk(rows, cursor, n, rule, fs) && m in Older(rows, cursor) && m !in Page(fs[0], n)
    requires NextCursor(rule, fs[0], n).Some?
    ensures m.createdAt <= NextCursor(rule, fs[0], n).value
  {
    WalkHead(rows, cursor, n, rule, fs);
    var f := fs[0];
    if m in f {
      assert f == Page(f, n) + f[n..];
      var i :| n <= i < |f| && f[i] == m;
    }
  }

  lemma CutLater(rule: Rule, fs: seq<seq<Message>>, n: nat, m: Message)
    requires n >= 1 && fs != []
    ensures CutSomewhere(rule, fs, n, m) <==> CutOff(rule, fs, 0, n, m) || CutSomewhere(rule, fs[1..], n, m)
  {
    if CutSomewhere(rule, fs[1..], n, m) {
      var k: nat :| k < |fs[1..]| && CutOff(rule, fs[1..], k, n, m);
      assert CutOff(rule, fs, k + 1, n, m);
    }
    if CutSomewhere(rule, fs, n, m) && !CutOff(rule, fs, 0, n, m) {
      var k: nat :| k < |fs| && CutOff(rule, fs, k, n, m);
      assert CutOff(rule, fs[1..], k - 1, n, m);
    }
  }

  lemma CursorIsOlder(rows: set<Message>, cursor: Option<int>, n: nat, rule: Rule, fs: seq<seq<Message>>)
    requires n >= 1 && IsWalk(rows, cursor, n, rule, fs)
    ensures NextCursor(rule, fs[0], n).Some? && cursor.Some? ==> NextCursor(rule, fs[0], n).value < cursor.value
  {
    WalkHead(rows, cursor, n, rule, fs);
    var f := fs[0];
    if |f| > n { assert f[n] in f && f[n - 1] in f; }
  }

  lemma {:induction false} CutIsOlder(
    rows: set<Message>, cursor: Option<int>, n: nat, rule: Rule, fs: seq<seq<Message>>, m: Message)
    requires n >= 1 && IsWalk(rows, cursor, n, rule, fs) && CutSomewhere(rule, fs, n, m)
    ensures cursor.Some? ==> m.createdAt < cursor.value
    decreases |fs|
  {
    CutLater(rule, fs, n, m);
    WalkTail(rows, cursor, n, rule, fs);
    CursorIsOlder(rows, cursor, n, rule, fs);
    if !CutOff(rule, fs, 0, n, m) && NextCursor(rule, fs[0], n).Some? {
      CutIsOlder(rows, NextCursor(rule, fs[0], n), n, rule, fs[1..], m);
    }
  }

  /** Under either rule and with any ties, a message is lost exactly if some page was cut at its
      timestamp without holding it. */
  lemma {:induction false} LostIffCutOff(
    rows: set<Message>, cursor: Option<int>, n: nat, rule: Rule, fs: seq<seq<Message>>, m: Message)
    requires n >= 1 && IsWalk(rows, cursor, n, rule, fs) && m in Older(rows, cursor)
    ensures m !in Delivered(fs, n) <==> CutSomewhere(rule, fs, n, m)
    decreases |fs|
  {
    CutLater(rule, fs, n, m);
    DeliveredIn(fs, n, m);
    WalkTail(rows, cursor, n, rule, fs);
    var c := NextCursor(rule, fs[0], n);
    if c.None? {
      NothingLeft(rows, cursor, n, rule, fs, m);
    } else if m in Page(fs[0], n) {
      NotCutLater(rows, cursor, n, rule, fs, m);
    } else {
      LeftoverIsOlder(rows, cursor, n, rule, fs, m);
      if m.createdAt < c.value {
        LostIffCutOff(rows, c, n, rule, fs[1..], m);
      } else {
        NothingNewer(rows, c, n, rule, fs[1..], m);
      }
    }
  }

  lemma NothingNewer(rows: set<Message>, cursor: Option<int>, n: nat, rule: Rule, fs: seq<seq<Message>>, m: Message)
    requires n >= 1 && IsWalk(rows, cursor, n, rule, fs) && cursor.Some? && m.createdAt >= cursor.value
    ensures m !in Delivered(fs, n)
  {
    DeliveredOnceInOrder(rows, cursor, n, rule, fs);
  }

  lemma NothingLeft(rows: set<Message>, cursor: Option<int>, n: nat, rule: Rule, fs: seq<seq<Message>>, m: Message)
    requires n >= 1 && IsWalk(rows, cursor, n, rule, fs) && NextCursor(rule, fs[0], n).None? && m in Older(rows, cursor)
    ensures m in Page(fs[0], n)
  {
    WalkHead(rows, cursor, n, rule, fs);
    ShortAnswerIsAll(Older(rows, cursor), n + 1, fs[0]);
    assert Page(fs[0], n) == fs[0];
  }

  lemma NotCutLater(rows: set<Message>, cursor: Option<int>, n: nat, rule: Rule, fs: seq<seq<Message>>, m: Message)
    requires n >= 1 && IsWalk(rows, cursor, n, rule, fs) && m in Page(fs[0], n) && NextCursor(rule, fs[0], n).Some?
    ensures !CutSomewhere(rule, fs[1..], n, m)
  {
    FirstPage(rows, cursor, n, rule, fs);
    WalkTail(rows, cursor, n, rule, fs);
    if CutSomewhere(rule, fs[1..], n, m) {
      CutIsOlder(rows, NextCursor(rule, fs[0], n), n, rule, fs[1..], m);
    }
  }

  lemma DeliveredIn(fs: seq<seq<Message>>, n: nat, m: Message)
    requires fs != []
    ensures m in Delivered(fs, n) <==> m in Page(fs[0], n) || m in Delivered(fs[1..], n)
  {
  }

  ghost predicate Complete(rows: set<Message>, n: nat, fs: seq<seq<Message>>) {
    forall m :: m in rows ==> m in Delivered(fs, n)
  }

  /** As coded, reading page by page gives the whole history exactly if it fits one page: each further
      page costs the message its cursor was taken from. */
  lemma CodedCompleteIffOnePage(rows: set<Message>, n: nat, fs: seq<seq<Message>>)
    requires n >= 1 && IsWalk(rows, None, n, AsCoded, fs)
    ensures Complete(rows, n, fs) <==> |rows| <= n
  {
    var f := fs[0];
    assert Older(rows, None) == rows;
    WalkHead(rows, None, n, AsCoded, fs);
    if |rows| <= n {
      forall m | m in rows
        ensures m in Delivered(fs, n)
      {
        NothingLeft(rows, None, n, AsCoded, fs, m);
        DeliveredIn(fs, n, m);
      }
    } else {
      FirstIsCutOff(rows, n, fs);
      LostIffCutOff(rows, None, n, AsCoded, fs, f[n]);
    }
  }

  lemma FirstIsCutOff(rows: set<Message>, n: nat, fs: seq<seq<Message>>)
    requires n >= 1 && fs != [] && |fs[0]| > n && IsAnswer(rows, n + 1, fs[0])
    ensures fs[0][n] in rows && CutSomewhere(AsCoded, fs, n, fs[0][n])
  {
    assert fs[0][n] in fs[0];
    assert CutOff(AsCoded, fs, 0, n, fs[0][n]);
  }

  /** With the documented cursor the history is complete exactly if no page is cut inside a group of
      equal timestamps. */
  lemma DocumentedCompleteIffNoTieCut(rows: set<Message>, n: nat, fs: seq<seq<Message>>)
    requires n >= 1 && IsWalk(rows, None, n, AsDocumented, fs)
    ensures Complete(rows, n, fs)
        <==> forall k, m :: 0 <= k < |fs| && |fs[k]| > n && m in rows && m.createdAt == fs[k][n - 1].createdAt
                            ==> m in Page(fs[k], n)
  {
    forall m | m in rows
      ensures m in Delivered(fs, n) <==> !CutSomewhere(AsDocumented, fs, n, m)
    {
      LostIffCutOff(rows, None, n, AsDocumented, fs, m);
    }
    if Complete(rows, n, fs) {
      forall k, m | 0 <= k < |fs| && |fs[k]| > n && m in rows && m.createdAt == fs[k][n - 1].createdAt
        ensures m in Page(fs[k], n)
      {
        assert !CutOff(AsDocumented, fs, k, n, m);
      }
    }
  }

  /** With the documented cursor and distinct timestamps, a walk is the whole history, newest first,
      each message once. */
  lemma DocumentedWalkIsTheHistory(rows: set<Message>, n: nat, fs: seq<seq<Message>>)
    requires n >= 1 && IsWalk(rows, None, n, AsDocumented, fs) && Distinct(rows)
    ensures IsAnswer(rows, |rows|, Delivered(fs, n))
  {
    var d := Delivered(fs, n);
    DeliveredOnceInOrder(rows, None, n, AsDocumented, fs);
    forall k, m | 0 <= k < |fs| && |fs[k]| > n && m in rows && m.createdAt == fs[k][n - 1].createdAt
      ensures m in Page(fs[k], n)
    {
      AnswersComeFromRows(rows, None, n, AsDocumented, fs, k);
      assert fs[k][n - 1] in fs[k];
      assert fs[k][n - 1] in rows && fs[k][n - 1] == m;
      assert Page(fs[k], n)[n - 1] == m;
    }
    DocumentedCompleteIffNoTieCut(rows, n, fs);
    assert (set m | m in d) == rows;
    NoRepeatsSize(d);
  }

  lemma {:induction false} AnswersComeFromRows(
    rows: set<Message>, cursor: Option<int>, n: nat, rule: Rule, fs: seq<seq<Message>>, k: nat)
    requires n >= 1 && IsWalk(rows, cursor, n, rule, fs) && k < |fs|
    ensures forall m :: m in fs[k] ==> m in rows
    decreases |fs|
  {
    WalkHead(rows, cursor, n, rule, fs);
    WalkTail(rows, cursor, n, rule, fs);
    if k > 0 { AnswersComeFromRows(rows, NextCursor(rule, fs[0], n), n, rule, fs[1..], k - 1); }
  }
}
