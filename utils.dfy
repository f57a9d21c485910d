/**
 * app/lib/utils.ts: session ids, best-effort persistence in local storage, and
 * the recent-sessions index built by scanning every stored key.
 * A `null` storage stands for an environment without `window`.
 */
module Utils {
  import opened Optional
  import opened Text
  import opened Session
  import opened Browser

  const SessionPrefix: string := "session-"

  /** `key.startsWith('session-')` */
  predicate IsSessionKey(key: string) {
    |SessionPrefix| <= |key| && key[..|SessionPrefix|] == SessionPrefix
  }

  /**
   * `session-<ms>-<suffix>`: the clock reading `now` and the random base-36
   * suffix are inputs.
   */
  function GenerateSessionId(now: nat, suffix: string): (id: string)
    ensures IsSessionKey(id)
  {
    SessionPrefix + DecimalString(now) + "-" + suffix
  }

  /** `key.split('-')[1]`: the field after the prefix. */
  function TimestampOf(key: string): string
    requires IsSessionKey(key)
  {
    assert key[7] == SessionPrefix[7];
    Split(key, '-')[1]
  }

  /** The field `split('-')[1]` of a generated id is the decimal clock reading it was built from. */
  lemma {:induction false} SessionIdTimestamp(now: nat, suffix: string)
    ensures Number(TimestampOf(GenerateSessionId(now, suffix))) == Some(now)
  {
    var digits := DecimalString(now);
    var id := GenerateSessionId(now, suffix);
    assert '-' !in digits by {
      forall i | 0 <= i < |digits| ensures digits[i] != '-' {
        assert IsDigit(digits[i]);
      }
    }
    assert id == "session" + ['-'] + (digits + ['-'] + suffix);
    SplitAtFirst("session", digits + ['-'] + suffix, '-');
    SplitAtFirst(digits, suffix, '-');
    DecimalRoundTrip(now);
  }

  /** `localStorage.setItem(key, JSON.stringify(value))`, skipped without a window. */
  method SaveToLocalStorage(ls: LocalStorage?, key: string, value: Record)
    requires ls != null ==> ls.Valid()
    modifies ls
    ensures ls != null ==> ls.Valid()
    ensures ls != null ==> ls.items == old(ls.items)[key := value]
    ensures ls != null ==> ls.keys == if key in old(ls.items) then old(ls.keys) else old(ls.keys) + [key]
    ensures ls != null ==> GetFromLocalStorage(ls, key) == Some(value)
    ensures ls != null ==> forall k :: k != key ==> GetFromLocalStorage(ls, k) == old(GetFromLocalStorage(ls, k))
  {
    if ls != null {
      ls.SetItem(key, value);
    }
  }

  /** `getFromLocalStorage(key)`: the stored record, or `None` (null) when absent or without a window. */
  function GetFromLocalStorage(ls: LocalStorage?, key: string): (r: Option<Record>)
    reads ls
    ensures ls == null ==> r == None
    ensures r.Some? <==> ls != null && key in ls.items
    ensures r.Some? ==> r.value == ls.items[key]
  {
    if ls != null then ls.GetItem(key) else None
  }

  /** The stored records, none without a window. */
  ghost function StoredItems(ls: LocalStorage?): map<string, Record>
    reads ls
  {
    if ls != null then ls.items else map[]
  }

  /** One row of the recent-sessions index. */
  datatype SessionEntry = SessionEntry(id: string, lastMessage: string, timestamp: string)

  /** `messages[messages.length - 1]?.content || ''` */
  function LastMessage(ms: seq<Message>): string {
    if ms == [] then "" else ms[|ms| - 1].content
  }

  function EntryOf(key: string, session: Record): SessionEntry
    requires IsSessionKey(key)
  {
    SessionEntry(key, LastMessage(session.messages), TimestampOf(key))
  }

  /** The entries the scan of getAllSessions pushes, for the keys `keys` in enumeration order. */
  function Collect(keys: seq<string>, items: map<string, Record>): seq<SessionEntry> {
    if keys == [] then []
    else
      var key := keys[|keys| - 1];
      Collect(keys[..|keys| - 1], items)
        + (if IsSessionKey(key) && key in items then [EntryOf(key, items[key])] else [])
  }

  /** The scan yields an entry for every stored session key, and nothing else. */
  lemma {:induction false} CollectMembers(keys: seq<string>, items: map<string, Record>)
    ensures forall e :: e in Collect(keys, items) ==>
      && e.id in keys && IsSessionKey(e.id) && e.id in items && e == EntryOf(e.id, items[e.id])
    ensures forall k :: k in keys && IsSessionKey(k) && k in items ==> EntryOf(k, items[k]) in Collect(keys, items)
  {
    if keys != [] {
      var init := keys[..|keys| - 1];
      CollectMembers(init, items);
      assert keys == init + [keys[|keys| - 1]];
    }
  }

  predicate DistinctIds(s: seq<SessionEntry>) {
    forall i, j :: 0 <= i < j < |s| ==> s[i].id != s[j].id
  }

  /** Over distinct keys, no two entries share an id: one entry per stored session. */
  lemma {:induction false} CollectDistinctIds(keys: seq<string>, items: map<string, Record>)
    requires Distinct(keys)
    ensures DistinctIds(Collect(keys, items))
  {
    if keys != [] {
      var init := keys[..|keys| - 1];
      var last := keys[|keys| - 1];
      CollectDistinctIds(init, items);
      CollectMembers(init, items);
      assert last !in init;
      var c := Collect(keys, items);
      var ci := Collect(init, items);
      var tail := if IsSessionKey(last) && last in items then [EntryOf(last, items[last])] else [];
      assert c == ci + tail;
      assert forall m :: 0 <= m < |init| ==> init[m] == keys[m];
      forall i, j | 0 <= i < j < |c| ensures c[i].id != c[j].id {
        assert c[i] == ci[i];
        if j >= |ci| {
          assert ci[i] in ci;
          assert ci[i].id in init;
          assert c[j] == tail[0];
          assert c[j].id == last;
        } else {
          assert c[j] == ci[j];
        }
      }
    }
  }

  /** The sort key `Number(timestamp)`; an unparsable timestamp (`NaN`) ranks below every number. */
  function Rank(e: SessionEntry): int {
    match Number(e.timestamp)
    case Some(n) => n
    case None => -1
  }

  /** Non-increasing by `rank`. */
  predicate SortedBy(s: seq<SessionEntry>, rank: SessionEntry -> int) {
    forall i, j :: 0 <= i < j < |s| ==> rank(s[i]) >= rank(s[j])
  }

  predicate SortedNewestFirst(s: seq<SessionEntry>) {
    SortedBy(s, Rank)
  }

  /** Puts `e` before the first entry it does not rank below. */
  function Insert(e: SessionEntry, s: seq<SessionEntry>, rank: SessionEntry -> int): (r: seq<SessionEntry>)
    requires SortedBy(s, rank)
    ensures SortedBy(r, rank)
    ensures multiset(r) == multiset(s) + multiset{e}
  {
    if s == [] || rank(e) >= rank(s[0]) then [e] + s
    else
      var rest := Insert(e, s[1..], rank);
      assert s == [s[0]] + s[1..];
      BoundKeptByReorder(rank(s[0]), e, s[1..], rest, rank);
      [s[0]] + rest
  }

  /** A bound on every rank of `s` and on `e` bounds every rank of a reordering of `s` plus `e`. */
  lemma BoundKeptByReorder(bound: int, e: SessionEntry, s: seq<SessionEntry>, r: seq<SessionEntry>, rank: SessionEntry -> int)
    requires multiset(r) == multiset(s) + multiset{e}
    requires bound >= rank(e) && forall k :: 0 <= k < |s| ==> bound >= rank(s[k])
    ensures forall k :: 0 <= k < |r| ==> bound >= rank(r[k])
  {
    forall k | 0 <= k < |r| ensures bound >= rank(r[k]) {
      assert r[k] in multiset(s) + multiset{e};
      if r[k] != e {
        assert r[k] in s;
      }
    }
  }

  /** Stable insertion sort, non-increasing by `rank`. */
  function SortBy(s: seq<SessionEntry>, rank: SessionEntry -> int): (r: seq<SessionEntry>)
    ensures SortedBy(r, rank)
    ensures multiset(r) == multiset(s)
  {
    if s == [] then []
    else
      assert s == [s[0]] + s[1..];
      Insert(s[0], SortBy(s[1..], rank), rank)
  }

  /**
   * `sessions.sort((a, b) => Number(b.timestamp) - Number(a.timestamp))`:
   * newest first, ties kept in scan order.
   */
  function SortByTimestamp(s: seq<SessionEntry>): (r: seq<SessionEntry>)
    ensures SortedNewestFirst(r)
    ensures multiset(r) == multiset(s)
  {
    SortBy(s, Rank)
  }

  /** What getAllSessions returns for the store `ls`. */
  function SessionIndex(ls: LocalStorage?): seq<SessionEntry>
    reads ls
  {
    if ls == null then [] else SortByTimestamp(Collect(ls.keys, ls.items))
  }

  /** A sequence without repeated elements holds each value at most once. */
  lemma {:induction false} CountWithoutRepeats(c: seq<SessionEntry>, e: SessionEntry)
    requires forall i, j :: 0 <= i < j < |c| ==> c[i] != c[j]
    ensures multiset(c)[e] <= 1
  {
    if c != [] {
      CountWithoutRepeats(c[1..], e);
      assert c == [c[0]] + c[1..];
      assert c[0] == e ==> e !in c[1..];
    }
  }

  /** A value at two positions is counted at least twice. */
  lemma {:induction false} CountRepeated(r: seq<SessionEntry>, i: nat, j: nat)
    requires i < j < |r| && r[i] == r[j]
    ensures multiset(r)[r[i]] >= 2
  {
    assert r == r[..i] + [r[i]] + r[i + 1..j] + [r[j]] + r[j + 1..];
  }

  /** Reordering entries keeps their ids distinct. */
  lemma {:induction false} PermutationKeepsIdsDistinct(c: seq<SessionEntry>, r: seq<SessionEntry>)
    requires multiset(r) == multiset(c)
    requires DistinctIds(c)
    ensures DistinctIds(r)
  {
    forall i, j | 0 <= i < j < |r| ensures r[i].id != r[j].id {
      assert r[i] in multiset(c) && r[j] in multiset(c);
      var a :| 0 <= a < |c| && c[a] == r[i];
      var b :| 0 <= b < |c| && c[b] == r[j];
      if r[i].id == r[j].id {
        assert a == b;
        CountRepeated(r, i, j);
        CountWithoutRepeats(c, r[i]);
      }
    }
  }

  /** The index lists exactly the stored sessions, each built from its own key and record, newest first. */
  lemma {:induction false} SessionIndexMembers(keys: seq<string>, items: map<string, Record>)
    ensures var r := SortByTimestamp(Collect(keys, items));
      && (forall e :: e in r ==> e.id in keys && IsSessionKey(e.id) && e.id in items && e == EntryOf(e.id, items[e.id]))
      && (forall k :: k in keys && IsSessionKey(k) && k in items ==> EntryOf(k, items[k]) in r)
  {
    var c := Collect(keys, items);
    var r := SortByTimestamp(c);
    CollectMembers(keys, items);
    forall e ensures e in r <==> e in c {
      assert e in r <==> e in multiset(r);
      assert e in c <==> e in multiset(c);
    }
  }

  /** Over distinct storage keys the index holds one entry per session. */
  lemma {:induction false} SessionIndexOnePerSession(keys: seq<string>, items: map<string, Record>)
    requires Distinct(keys)
    ensures DistinctIds(SortByTimestamp(Collect(keys, items)))
  {
    CollectDistinctIds(keys, items);
    PermutationKeepsIdsDistinct(Collect(keys, items), SortByTimestamp(Collect(keys, items)));
  }

  /** Of two generated sessions in the index, the one created later comes first. */
  lemma {:induction false} NewerSessionListedFirst(
    keys: seq<string>, items: map<string, Record>,
    t1: nat, suffix1: string, t2: nat, suffix2: string, i: nat, j: nat)
    requires t1 < t2
    requires var r := SortByTimestamp(Collect(keys, items));
      && i < |r| && r[i].id == GenerateSessionId(t2, suffix2)
      && j < |r| && r[j].id == GenerateSessionId(t1, suffix1)
    ensures i < j
  {
    var r := SortByTimestamp(Collect(keys, items));
    SessionIndexMembers(keys, items);
    assert r[i] in r && r[j] in r;
    RankOfGenerated(r[i], t2, suffix2);
    RankOfGenerated(r[j], t1, suffix1);
  }

  /** An entry built for a generated id ranks by the clock reading of that id. */
  lemma RankOfGenerated(e: SessionEntry, now: nat, suffix: string)
    requires e.id == GenerateSessionId(now, suffix) && e.timestamp == TimestampOf(e.id)
    ensures Rank(e) == now
  {
    SessionIdTimestamp(now, suffix);
  }

  /**
   * getAllSessions: scan every stored key in enumeration order, keep the
   * session keys whose record is present, then sort newest first.
   */
  method GetAllSessions(ls: LocalStorage?) returns (sessions: seq<SessionEntry>)
    requires ls != null ==> ls.Valid()
    ensures sessions == SessionIndex(ls)
  {
    if ls == null {
      return [];
    }
    var found: seq<SessionEntry> := [];
    var i := 0;
    while i < |ls.keys|
      invariant 0 <= i <= |ls.keys|
      invariant found == Collect(ls.keys[..i], ls.items)
    {
      var key := ls.keys[i];
      assert ls.keys[..i + 1][..i] == ls.keys[..i];
      if IsSessionKey(key) {
        var session := GetFromLocalStorage(ls, key);
        if session.Some? {
          found := found + [EntryOf(key, session.value)];
        }
      }
      i := i + 1;
    }
    assert ls.keys[..i] == ls.keys;
    sessions := SortByTimestamp(found);
  }
}
