/** Walks through a chat's history while the chat service keeps running. */
module HistoryRuns {
  import opened Common
  import opened ChatTables
  import opened ChatMachine
  import opened History
  import opened HistoryWalks

  /** The messages of `chat` after the first `i` steps. */
  ghost function RowsAt(steps: seq<Step>, i: nat, chat: int): set<Message>
    requires i <= |steps|
  {
    Rows(Run(Init(), steps[..i]).st.db, chat)
  }

  /** Messages appended to a table ordered by time are not older than what it held. */
  lemma AppendingExtends(ms: seq<Message>, ms': seq<Message>, chat: int)
    requires ms <= ms'
    requires forall i, j :: 0 <= i < j < |ms'| ==> ms'[i].createdAt <= ms'[j].createdAt
    ensures Extends((set m | m in ms && m.chatId == chat), (set m | m in ms' && m.chatId == chat))
  {
    forall x, m | x in ms && m in ms' && m !in ms
      ensures m.createdAt >= x.createdAt
    {
      var a :| 0 <= a < |ms| && ms[a] == x;
      var b :| 0 <= b < |ms'| && ms'[b] == m;
      assert ms'[..|ms|] == ms && ms'[a] == x;
      NotInPrefix(ms', |ms|, b);
    }
    assert forall x :: x in ms ==> x in ms';
  }

  lemma NotInPrefix(s: seq<Message>, n: nat, b: nat)
    requires n <= |s| && b < |s| && s[b] !in s[..n]
    ensures b >= n
  {
  }

  lemma HistoryExtends(steps: seq<Step>, i: nat, j: nat, chat: int)
    requires i <= j <= |steps|
    ensures Extends(RowsAt(steps, i, chat), RowsAt(steps, j, chat))
  {
    var ms' := Run(Init(), steps[..j]).st.db.messages;
    MessagesGrow(steps[..j], i);
    assert steps[..j][..i] == steps[..i];
    RunKeeps(Init(), steps[..j]);
    AppendingExtends(Run(Init(), steps[..i]).st.db.messages, ms', chat);
  }

  /** A walk that reads its `k`-th page after `at[k]` steps of any interleaved run, with any failures,
      is a walk over the history as it was at `at[0]`. */
  lemma WalkDuringARun(
    steps: seq<Step>, at: seq<nat>, chat: int, n: nat, rule: Rule,
    tables: seq<set<Message>>, fs: seq<seq<Message>>)
    requires n >= 1 && |tables| == |at|
    requires forall k :: 0 <= k < |at| ==> at[0] <= at[k] <= |steps| && tables[k] == RowsAt(steps, at[k], chat)
    requires IsLiveWalk(tables, None, n, rule, fs)
    ensures IsWalk(RowsAt(steps, at[0], chat), None, n, rule, fs)
  {
    forall t | t in tables
      ensures Extends(tables[0], t)
    {
      var k :| 0 <= k < |tables| && tables[k] == t;
      HistoryExtends(steps, at[0], at[k], chat);
    }
    LiveWalkIsFrozen(tables, n, rule, fs);
  }
}
