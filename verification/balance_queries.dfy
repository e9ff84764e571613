/**
 * The `balances` table of balance_bot.py and its two queries. Rows are
 * appended by `handle_message`; `/balance` shows the newest row of every
 * (alias, bank) pair of the chat ordered by alias, and `/history` the 25
 * newest rows of the chat. Balances are whole paise and timestamps whole
 * seconds.
 */
module BalanceQueries {
  import opened Wrappers
  import opened Strings
  import opened Sequences
  import BalanceParse
  import IndianFormat

  /** One row of `balances`. */
  datatype Row = Row(chatId: int, alias: string, bank: string, balance: int, isCredit: bool, timestamp: int)

  /** The `PARTITION BY alias, bank` key. */
  datatype Key = Key(alias: string, bank: string)

  function KeyOf(r: Row): Key {
    Key(r.alias, r.bank)
  }

  /** `WHERE chat_id=?`, in insertion order. */
  function ChatRows(rows: seq<Row>, chat: int): (r: seq<Row>)
    ensures forall x :: x in r <==> x in rows && x.chatId == chat
    ensures |r| <= |rows|
  {
    if rows == [] then []
    else (if rows[0].chatId == chat then [rows[0]] else []) + ChatRows(rows[1..], chat)
  }

  // ---------------------------------------------------------------------
  // /balance: the newest row per key
  // ---------------------------------------------------------------------

  /** The rows with key `k`. */
  function WithKey(rows: seq<Row>, k: Key): (r: seq<Row>)
    ensures forall x :: x in r <==> x in rows && KeyOf(x) == k
  {
    if rows == [] then []
    else (if KeyOf(rows[0]) == k then [rows[0]] else []) + WithKey(rows[1..], k)
  }

  /** The keys that occur, once each. */
  function Keys(rows: seq<Row>): (ks: seq<Key>)
    ensures NoDup(ks)
    ensures forall x :: x in rows ==> KeyOf(x) in ks
    ensures forall k :: k in ks ==> WithKey(rows, k) != []
  {
    if rows == [] then []
    else
      var rest := Keys(rows[1..]);
      assert rows == [rows[0]] + rows[1..];
      assert rows[0] in WithKey(rows, KeyOf(rows[0]));
      assert forall k :: k in rest ==> WithKey(rows[1..], k) != [] ==> WithKey(rows, k) != [];
      if KeyOf(rows[0]) in rest then rest else [KeyOf(rows[0])] + rest
  }

  /**
   * The row `ROW_NUMBER() ... ORDER BY timestamp DESC` numbers 1: a row of
   * greatest timestamp, the earliest stored of equal ones.
   */
  function Newest(cs: seq<Row>): (i: nat)
    requires cs != []
    ensures i < |cs|
    ensures forall j :: 0 <= j < |cs| ==> cs[j].timestamp <= cs[i].timestamp
  {
    if |cs| == 1 then 0
    else
      var k := Newest(cs[1..]) + 1;
      if cs[0].timestamp >= cs[k].timestamp then 0 else k
  }

  /** `x` is a row of key `k`, and no row of that key is newer. */
  predicate NewestOf(rows: seq<Row>, k: Key, x: Row) {
    KeyOf(x) == k && x in rows && forall y :: y in rows && KeyOf(y) == k ==> y.timestamp <= x.timestamp
  }

  /** The newest row of key `k`. */
  function PickOne(rows: seq<Row>, k: Key): (x: Row)
    requires WithKey(rows, k) != []
    ensures NewestOf(rows, k, x)
  {
    var cs := WithKey(rows, k);
    var n := Newest(cs);
    assert cs[n] in cs;
    cs[n]
  }

  /** The newest row of each key, in the order of `ks`. */
  function PickAll(rows: seq<Row>, ks: seq<Key>): (r: seq<Row>)
    requires forall k :: k in ks ==> WithKey(rows, k) != []
    ensures |r| == |ks|
    ensures forall i :: 0 <= i < |ks| ==> NewestOf(rows, ks[i], r[i])
  {
    if ks == [] then []
    else [PickOne(rows, ks[0])] + PickAll(rows, ks[1..])
  }

  /** SQLite's default `ORDER BY` on text: code point by code point, a prefix first. */
  predicate StrLe(a: string, b: string) {
    a == [] || (b != [] && (a[0] < b[0] || (a[0] == b[0] && StrLe(a[1..], b[1..]))))
  }

  lemma {:induction false} StrLeTotal(a: string, b: string)
    ensures StrLe(a, b) || StrLe(b, a)
  {
    if a != [] && b != [] && a[0] == b[0] {
      StrLeTotal(a[1..], b[1..]);
    }
  }

  lemma {:induction false} StrLeTrans(a: string, b: string, c: string)
    requires StrLe(a, b) && StrLe(b, c)
    ensures StrLe(a, c)
  {
    if a != [] && b != [] && c != [] && a[0] == b[0] && b[0] == c[0] {
      StrLeTrans(a[1..], b[1..], c[1..]);
    }
  }

  predicate SortedByAlias(ks: seq<Key>) {
    forall i, j :: 0 <= i < j < |ks| ==> StrLe(ks[i].alias, ks[j].alias)
  }

  function InsertKey(k: Key, ks: seq<Key>): (r: seq<Key>)
    ensures multiset(r) == multiset(ks) + multiset{k}
  {
    if ks == [] || StrLe(k.alias, ks[0].alias) then [k] + ks
    else
      assert ks == [ks[0]] + ks[1..];
      [ks[0]] + InsertKey(k, ks[1..])
  }

  /** `ORDER BY alias`, as an insertion sort. */
  function SortKeys(ks: seq<Key>): (r: seq<Key>)
    ensures multiset(r) == multiset(ks)
  {
    if ks == [] then []
    else
      assert ks == [ks[0]] + ks[1..];
      InsertKey(ks[0], SortKeys(ks[1..]))
  }

  lemma {:induction false} InsertKeySorted(k: Key, ks: seq<Key>)
    requires SortedByAlias(ks)
    ensures SortedByAlias(InsertKey(k, ks))
  {
    if ks == [] || StrLe(k.alias, ks[0].alias) {
      forall j | 2 <= j < |ks| + 1 ensures StrLe(k.alias, ([k] + ks)[j].alias) {
        StrLeTrans(k.alias, ks[0].alias, ks[j - 1].alias);
      }
    } else {
      StrLeTotal(k.alias, ks[0].alias);
      InsertKeySorted(k, ks[1..]);
      var rest := InsertKey(k, ks[1..]);
      forall j | 0 <= j < |rest| ensures StrLe(ks[0].alias, rest[j].alias) {
        assert rest[j] in multiset(rest);
        assert rest[j] == k || rest[j] in ks[1..];
      }
    }
  }

  lemma {:induction false} InsertKeyNoDup(k: Key, ks: seq<Key>)
    requires NoDup(ks) && k !in ks
    ensures NoDup(InsertKey(k, ks))
  {
    if !(ks == [] || StrLe(k.alias, ks[0].alias)) {
      InsertKeyNoDup(k, ks[1..]);
      var rest := InsertKey(k, ks[1..]);
      forall j | 0 <= j < |rest| ensures rest[j] != ks[0] {
        assert rest[j] in multiset(rest);
      }
    }
  }

  lemma {:induction false} SortKeysSpec(ks: seq<Key>)
    requires NoDup(ks)
    ensures SortedByAlias(SortKeys(ks)) && NoDup(SortKeys(ks))
  {
    if ks != [] {
      SortKeysSpec(ks[1..]);
      var rest := SortKeys(ks[1..]);
      InsertKeySorted(ks[0], rest);
      assert ks[0] !in multiset(rest);
      InsertKeyNoDup(ks[0], rest);
    }
  }

  /** The `/balance` query. */
  function BalanceQuery(rows: seq<Row>, chat: int): (out: seq<Row>)
    ensures forall x :: x in out ==> x in rows && x.chatId == chat
  {
    Latest(ChatRows(rows, chat))
  }

  lemma KeysHaveRows(cr: seq<Row>)
    ensures forall k :: k in SortKeys(Keys(cr)) ==> WithKey(cr, k) != []
  {
    var ks := SortKeys(Keys(cr));
    forall k | k in ks ensures WithKey(cr, k) != [] {
      assert k in multiset(ks);
    }
  }

  /** The newest rows of the sorted keys, the shape of the `/balance` query over any rows. */
  function Latest(cr: seq<Row>): (out: seq<Row>)
    ensures forall x :: x in out ==> x in cr
  {
    KeysHaveRows(cr);
    PickAll(cr, SortKeys(Keys(cr)))
  }

  lemma QueryIsLatest(rows: seq<Row>, chat: int)
    ensures BalanceQuery(rows, chat) == Latest(ChatRows(rows, chat))
  {
  }

  /** No two rows share an (alias, bank) pair. */
  predicate KeysDistinct(out: seq<Row>) {
    forall i, j :: 0 <= i < j < |out| ==> KeyOf(out[i]) != KeyOf(out[j])
  }

  /** Rows in `ORDER BY alias` order. */
  predicate AliasOrdered(out: seq<Row>) {
    forall i, j :: 0 <= i < j < |out| ==> StrLe(out[i].alias, out[j].alias)
  }

  /** Every pair occurring in `cr` has a row in `out`. */
  predicate Covers(out: seq<Row>, cr: seq<Row>) {
    forall y :: y in cr ==> exists i :: 0 <= i < |out| && KeyOf(out[i]) == KeyOf(y)
  }

  /** Each row of `out` is as new as every row of `cr` with its pair. */
  predicate NewestOfKey(out: seq<Row>, cr: seq<Row>) {
    forall i, y :: 0 <= i < |out| && y in cr && KeyOf(y) == KeyOf(out[i]) ==> y.timestamp <= out[i].timestamp
  }

  lemma LatestDistinctSorted(cr: seq<Row>)
    ensures KeysDistinct(Latest(cr)) && AliasOrdered(Latest(cr))
  {
    SortKeysSpec(Keys(cr));
  }

  lemma LatestNewest(cr: seq<Row>)
    ensures NewestOfKey(Latest(cr), cr)
  {
  }

  lemma LatestCovers(cr: seq<Row>)
    ensures Covers(Latest(cr), cr)
  {
    var ks := SortKeys(Keys(cr));
    var out := Latest(cr);
    assert out == PickAll(cr, ks);
    forall y | y in cr ensures exists i :: 0 <= i < |out| && KeyOf(out[i]) == KeyOf(y) {
      assert KeyOf(y) in multiset(ks);
      var i :| 0 <= i < |ks| && ks[i] == KeyOf(y);
      assert NewestOf(cr, ks[i], out[i]);
    }
  }

  /**
   * What the `/balance` query returns: rows of this chat only, one per
   * (alias, bank) pair occurring in the chat, each carrying the greatest
   * timestamp of its pair, ordered by alias; empty exactly when the chat
   * has no rows.
   */
  lemma BalanceQuerySpec(rows: seq<Row>, chat: int)
    ensures forall x :: x in BalanceQuery(rows, chat) ==> x in rows && x.chatId == chat
    ensures KeysDistinct(BalanceQuery(rows, chat))
    ensures Covers(BalanceQuery(rows, chat), ChatRows(rows, chat))
    ensures NewestOfKey(BalanceQuery(rows, chat), ChatRows(rows, chat))
    ensures AliasOrdered(BalanceQuery(rows, chat))
    ensures BalanceQuery(rows, chat) == [] <==> forall y :: y in rows ==> y.chatId != chat
  {
    var cr := ChatRows(rows, chat);
    QueryIsLatest(rows, chat);
    LatestDistinctSorted(cr);
    LatestNewest(cr);
    LatestCovers(cr);
    if y :| y in rows && y.chatId == chat {
      assert y in cr;
    }
  }

  // ---------------------------------------------------------------------
  // /history: the 25 newest rows
  // ---------------------------------------------------------------------

  const HistoryLimit := 25

  function InsertDesc(x: Row, s: seq<Row>): (r: seq<Row>)
    ensures multiset(r) == multiset(s) + multiset{x}
  {
    if s == [] || x.timestamp >= s[0].timestamp then [x] + s
    else
      assert s == [s[0]] + s[1..];
      [s[0]] + InsertDesc(x, s[1..])
  }

  /** `ORDER BY timestamp DESC`, as an insertion sort. */
  function SortDesc(s: seq<Row>): (r: seq<Row>)
    ensures multiset(r) == multiset(s)
  {
    if s == [] then []
    else
      assert s == [s[0]] + s[1..];
      InsertDesc(s[0], SortDesc(s[1..]))
  }

  predicate Descending(s: seq<Row>) {
    forall i, j :: 0 <= i < j < |s| ==> s[i].timestamp >= s[j].timestamp
  }

  lemma {:induction false} InsertDescSorted(x: Row, s: seq<Row>)
    requires Descending(s)
    ensures Descending(InsertDesc(x, s))
  {
    if !(s == [] || x.timestamp >= s[0].timestamp) {
      InsertDescSorted(x, s[1..]);
      var rest := InsertDesc(x, s[1..]);
      forall j | 0 <= j < |rest| ensures s[0].timestamp >= rest[j].timestamp {
        assert rest[j] in multiset(rest);
        assert rest[j] == x || rest[j] in s[1..];
      }
    }
  }

  lemma {:induction false} SortDescSorted(s: seq<Row>)
    ensures Descending(SortDesc(s))
  {
    if s != [] {
      SortDescSorted(s[1..]);
      InsertDescSorted(s[0], SortDesc(s[1..]));
    }
  }

  function Min(a: int, b: int): int {
    if a <= b then a else b
  }

  /** The `/history` query: `ORDER BY timestamp DESC LIMIT 25`. */
  function HistoryQuery(rows: seq<Row>, chat: int): (out: seq<Row>)
    ensures |out| == Min(HistoryLimit, |ChatRows(rows, chat)|)
  {
    var s := SortDesc(ChatRows(rows, chat));
    assert |s| == |multiset(s)|;
    if |s| <= HistoryLimit then s else s[..HistoryLimit]
  }

  /** No row of `all` that `out` leaves out is newer than a row `out` keeps. */
  predicate KeepsNewest(out: seq<Row>, all: multiset<Row>) {
    forall x, y :: x in out && y in all - multiset(out) ==> y.timestamp <= x.timestamp
  }

  /** Cutting a newest-first list after `k` rows keeps it newest-first and drops nothing newer than what is kept. */
  lemma PrefixKeepsNewest(s: seq<Row>, k: nat)
    requires Descending(s) && k <= |s|
    ensures Descending(s[..k])
    ensures multiset(s[..k]) <= multiset(s)
    ensures KeepsNewest(s[..k], multiset(s))
  {
    assert s == s[..k] + s[k..];
    assert multiset(s) - multiset(s[..k]) == multiset(s[k..]);
    forall x: Row, y: Row | x in s[..k] && y in multiset(s[k..]) ensures y.timestamp <= x.timestamp {
      CutPair(s, k, x, y);
    }
  }

  lemma CutPair(s: seq<Row>, k: nat, x: Row, y: Row)
    requires Descending(s) && k <= |s|
    requires x in s[..k] && y in s[k..]
    ensures y.timestamp <= x.timestamp
  {
    var j :| 0 <= j < |s[k..]| && s[k..][j] == y;
    var i :| 0 <= i < k && s[..k][i] == x;
    assert s[k + j] == y && s[i] == x;
  }

  /**
   * What the `/history` query returns: at most 25 rows, all of this chat,
   * newest first, taken from the chat's rows without repetition, and every
   * row left out is no newer than any row shown.
   */
  lemma HistoryQuerySpec(rows: seq<Row>, chat: int)
    ensures var cr := ChatRows(rows, chat);
      var out := HistoryQuery(rows, chat);
      && |out| == Min(HistoryLimit, |cr|)
      && (forall x :: x in out ==> x in rows && x.chatId == chat)
      && Descending(out)
      && multiset(out) <= multiset(cr)
      && KeepsNewest(out, multiset(cr))
  {
    var cr := ChatRows(rows, chat);
    var s := SortDesc(cr);
    SortDescSorted(cr);
    var out := HistoryQuery(rows, chat);
    assert out == s[..|out|];
    PrefixKeepsNewest(s, |out|);
    forall x | x in out ensures x in rows && x.chatId == chat {
      assert x in multiset(cr);
    }
  }

  // ---------------------------------------------------------------------
  // The /balance reply
  // ---------------------------------------------------------------------

  /** One reply line: `` `alias_bank`  💰: ₹<amount> `` and " Cr." for a credit. */
  function BalanceLine(x: Row): string {
    "`" + x.alias + "_" + x.bank + "`  \U{1F4B0}: \U{20B9}" + IndianFormat.Format(x.balance)
      + (if x.isCredit then " Cr." else "")
  }

  function Lines(rs: seq<Row>): (ls: seq<string>)
    ensures |ls| == |rs|
    ensures forall i :: 0 <= i < |rs| ==> ls[i] == BalanceLine(rs[i])
  {
    if rs == [] then [] else [BalanceLine(rs[0])] + Lines(rs[1..])
  }

  const NoBalances := "No balances stored yet."

  /** The text `handle_balance` replies with. */
  function BalanceReply(rows: seq<Row>, chat: int): string {
    var q := BalanceQuery(rows, chat);
    if q == [] then NoBalances else Join(Lines(q), '\n')
  }

  /** A stored alias and bank never hold a line break (the pattern's groups exclude whitespace). */
  predicate OneLine(x: Row) {
    '\n' !in x.alias && '\n' !in x.bank
  }

  /** The formatted amount ends in a digit, so the " Cr." suffix is there iff the row is a credit. */
  lemma CreditSuffix(x: Row)
    ensures EndsWith(BalanceLine(x), " Cr.") <==> x.isCredit
    ensures '\n' !in BalanceLine(x) <==> OneLine(x)
  {
    var f := IndianFormat.Format(x.balance);
    var head := "`" + x.alias + "_" + x.bank + "`  \U{1F4B0}: \U{20B9}";
    var line := BalanceLine(x);
    assert f[|f| - 1] == IndianFormat.TwoDigits((if x.balance < 0 then -x.balance else x.balance) % 100)[1];
    if !x.isCredit {
      assert line == head + f;
      assert line[|line| - 1] == f[|f| - 1];
    }
    FormatOneLine(x.balance);
    if OneLine(x) {
      assert '\n' !in head;
    }
  }

  lemma FormatOneLine(paise: int)
    ensures '\n' !in IndianFormat.Format(paise)
  {
    var x := if paise < 0 then -paise else paise;
    GroupedOneLine(DecimalDigits(x / 100));
  }

  /** Grouping only adds commas to the digits. */
  lemma GroupedOneLine(s: string)
    requires AllDigits(s)
    ensures '\n' !in IndianFormat.Grouped(s)
  {
    assert ',' !in s && '\n' !in s;
    IndianFormat.CommasRemoveToDigitsText(s);
  }

  /**
   * The reply holds one line per row of the query, in order: splitting it
   * at line breaks gives back exactly the rendered rows; with no rows it is
   * the fixed notice.
   */
  lemma BalanceReplyLines(rows: seq<Row>, chat: int)
    requires forall x :: x in rows ==> OneLine(x)
    ensures var q := BalanceQuery(rows, chat);
      && (q == [] ==> BalanceReply(rows, chat) == NoBalances)
      && (q != [] ==> Split(BalanceReply(rows, chat), '\n') == Lines(q))
  {
    var q := BalanceQuery(rows, chat);
    if q != [] {
      var ls := Lines(q);
      forall i | 0 <= i < |ls| ensures '\n' !in ls[i] {
        CreditSuffix(q[i]);
      }
      SplitJoin(ls, '\n');
    }
  }

  // ---------------------------------------------------------------------
  // The /history reply
  // ---------------------------------------------------------------------

  /**
   * One `/history` line: `` <time> — `alias_bank`: ₹<amount> `` and " Cr."
   * for a credit. `stamp` is the row's time as `strftime` renders it.
   */
  function HistoryLine(x: Row, stamp: string): string {
    stamp + " \U{2014} `" + x.alias + "_" + x.bank + "`: \U{20B9}" + IndianFormat.Format(x.balance)
      + (if x.isCredit then " Cr." else "")
  }

  function HistoryLines(rs: seq<Row>, stamp: int -> string): (ls: seq<string>)
    ensures |ls| == |rs|
    ensures forall i :: 0 <= i < |rs| ==> ls[i] == HistoryLine(rs[i], stamp(rs[i].timestamp))
  {
    if rs == [] then [] else [HistoryLine(rs[0], stamp(rs[0].timestamp))] + HistoryLines(rs[1..], stamp)
  }

  const NoHistory := "No history yet."

  /** The text `handle_history` replies with; `stamp` renders a timestamp. */
  function HistoryReply(rows: seq<Row>, chat: int, stamp: int -> string): string {
    var q := HistoryQuery(rows, chat);
    if q == [] then NoHistory else Join(HistoryLines(q, stamp), '\n')
  }

  /** As on the `/balance` line, " Cr." ends a history line iff the row is a credit. */
  lemma HistoryCreditSuffix(x: Row, stamp: string)
    ensures EndsWith(HistoryLine(x, stamp), " Cr.") <==> x.isCredit
    ensures '\n' !in HistoryLine(x, stamp) <==> OneLine(x) && '\n' !in stamp
  {
    var f := IndianFormat.Format(x.balance);
    var head := stamp + " \U{2014} `" + x.alias + "_" + x.bank + "`: \U{20B9}";
    var line := HistoryLine(x, stamp);
    assert f[|f| - 1] == IndianFormat.TwoDigits((if x.balance < 0 then -x.balance else x.balance) % 100)[1];
    if !x.isCredit {
      assert line == head + f;
      assert line[|line| - 1] == f[|f| - 1];
    }
    FormatOneLine(x.balance);
    if OneLine(x) && '\n' !in stamp {
      assert '\n' !in head;
    }
  }

  /**
   * The `/history` reply holds one line per history row, newest first:
   * splitting it at line breaks gives back exactly the rendered rows; with
   * no rows it is the fixed notice.
   */
  lemma HistoryReplyLines(rows: seq<Row>, chat: int, stamp: int -> string)
    requires forall x :: x in rows ==> OneLine(x)
    requires forall t :: '\n' !in stamp(t)
    ensures var q := HistoryQuery(rows, chat);
      && (q == [] ==> HistoryReply(rows, chat, stamp) == NoHistory)
      && (q != [] ==> Split(HistoryReply(rows, chat, stamp), '\n') == HistoryLines(q, stamp))
  {
    var q := HistoryQuery(rows, chat);
    if q != [] {
      var ls := HistoryLines(q, stamp);
      HistoryQuerySpec(rows, chat);
      forall i | 0 <= i < |ls| ensures '\n' !in ls[i] {
        assert q[i] in q;
        HistoryCreditSuffix(q[i], stamp(q[i].timestamp));
      }
      SplitJoin(ls, '\n');
    }
  }

  // ---------------------------------------------------------------------
  // The table
  // ---------------------------------------------------------------------

  /** Match groups the balance pattern can produce: no whitespace in alias or bank. */
  predicate PatternGroups(g: BalanceParse.MatchGroups) {
    && BalanceParse.AmountShape(g.amt)
    && (forall i :: 0 <= i < |g.alias| ==> !IsSpace(g.alias[i]))
    && (forall i :: 0 <= i < |g.bank| ==> !IsSpace(g.bank[i]))
  }

  lemma LowerOneLine(s: string)
    requires '\n' !in s
    ensures '\n' !in Lower(s)
  {
    forall i | 0 <= i < |s| ensures Lower(s)[i] != '\n' {
      assert s[i] != '\n';
    }
  }

  class BalanceStore {
    var rows: seq<Row>

    ghost predicate Valid()
      reads this
    {
      forall x :: x in rows ==> OneLine(x)
    }

    constructor ()
      ensures rows == [] && Valid()
    {
      rows := [];
    }

    /**
     * `handle_message`: a parsed balance is appended with this chat and
     * the current time; anything else leaves the table as it was.
     * `amount` is `float(raw)` in paise.
     */
    method Record(chat: int, text: string, m: Option<BalanceParse.MatchGroups>, amount: int, now: int)
      returns (stored: bool)
      requires Valid()
      requires m.Some? ==> PatternGroups(m.value)
      modifies this
      ensures Valid()
      ensures stored <==> BalanceParse.ParseBalance(text, m).Some?
      ensures stored ==>
        var p := BalanceParse.ParseBalance(text, m).value;
        rows == old(rows) + [Row(chat, p.alias, p.bank, amount, p.isCredit, now)]
      ensures !stored ==> rows == old(rows)
    {
      var parsed := BalanceParse.ParseBalance(text, m);
      if parsed.None? {
        return false;
      }
      var p := parsed.value;
      var g := m.value;
      assert '\n' !in g.bank by {
        assert IsSpace('\n');
      }
      LowerOneLine(g.bank);
      assert '\n' !in p.alias by {
        assert IsSpace('\n');
      }
      rows := rows + [Row(chat, p.alias, p.bank, amount, p.isCredit, now)];
      stored := true;
    }

    /** `handle_balance`: the rows of the query rendered one per line. */
    method Balance(chat: int) returns (reply: string)
      ensures reply == BalanceReply(rows, chat)
    {
      var q := BalanceQuery(rows, chat);
      if q == [] {
        return NoBalances;
      }
      var lines: seq<string> := [];
      var i := 0;
      while i < |q|
        invariant 0 <= i <= |q|
        invariant lines == Lines(q[..i])
      {
        LinesSnoc(q, i);
        lines := lines + [BalanceLine(q[i])];
        i := i + 1;
      }
      assert q[..i] == q;
      reply := Join(lines, '\n');
    }

    /** `handle_history`: the notice, or one rendered line per history row. */
    method History(chat: int, stamp: int -> string) returns (reply: string)
      ensures reply == HistoryReply(rows, chat, stamp)
    {
      var q := HistoryQuery(rows, chat);
      if q == [] {
        return NoHistory;
      }
      var lines: seq<string> := [];
      var i := 0;
      while i < |q|
        invariant 0 <= i <= |q|
        invariant lines == HistoryLines(q[..i], stamp)
      {
        HistoryLinesSnoc(q, i, stamp);
        lines := lines + [HistoryLine(q[i], stamp(q[i].timestamp))];
        i := i + 1;
      }
      assert q[..i] == q;
      reply := Join(lines, '\n');
    }
  }

  lemma LinesSnoc(q: seq<Row>, i: nat)
    requires i < |q|
    ensures Lines(q[..i + 1]) == Lines(q[..i]) + [BalanceLine(q[i])]
  {
    assert q[..i + 1] == q[..i] + [q[i]];
    LinesAppend(q[..i], [q[i]]);
  }

  lemma {:induction false} LinesAppend(a: seq<Row>, b: seq<Row>)
    ensures Lines(a + b) == Lines(a) + Lines(b)
  {
    if a == [] {
      assert a + b == b;
    } else {
      assert (a + b)[1..] == a[1..] + b;
      LinesAppend(a[1..], b);
    }
  }

  lemma HistoryLinesSnoc(q: seq<Row>, i: nat, stamp: int -> string)
    requires i < |q|
    ensures HistoryLines(q[..i + 1], stamp) == HistoryLines(q[..i], stamp) + [HistoryLine(q[i], stamp(q[i].timestamp))]
  {
    assert q[..i + 1] == q[..i] + [q[i]];
    HistoryLinesAppend(q[..i], [q[i]], stamp);
  }

  lemma {:induction false} HistoryLinesAppend(a: seq<Row>, b: seq<Row>, stamp: int -> string)
    ensures HistoryLines(a + b, stamp) == HistoryLines(a, stamp) + HistoryLines(b, stamp)
  {
    if a == [] {
      assert a + b == b;
    } else {
      assert (a + b)[1..] == a[1..] + b;
      HistoryLinesAppend(a[1..], b, stamp);
    }
  }
}
