/** Counting failed sign-ins: how a name or an address is blocked, and how the tables stay small. */
module Lockout {
  import opened Basics

  /** Microseconds; 0 is the zero time, and the clock is always past it. */
  type Time = int

  const MAX_TRACKED: nat := 10000
  const MAX_ACCOUNT_FAILURES: int := 100
  const MAX_ADDRESS_FAILURES: int := 1000
  const MINUTE: int := 60_000_000
  const MAX_BLOCK: int := 1440 * MINUTE

  datatype Limits = Limits(accountFailures: int, addressFailures: int, block: int)

  /** Which limit is out of its range, in the order they are looked at. */
  function Invalid(l: Limits): (field: string)
    ensures field == "" <==> 1 <= l.accountFailures <= 100 && 1 <= l.addressFailures <= 1000
                             && 60_000_000 <= l.block <= 86_400_000_000
    ensures field == "account_failures" <==> !(1 <= l.accountFailures <= 100)
    ensures field == "address_failures" <==> 1 <= l.accountFailures <= 100 && !(1 <= l.addressFailures <= 1000)
    ensures field in {"", "account_failures", "address_failures", "block_minutes"}
  {
    if l.accountFailures < 1 || l.accountFailures > MAX_ACCOUNT_FAILURES then "account_failures"
    else if l.addressFailures < 1 || l.addressFailures > MAX_ADDRESS_FAILURES then "address_failures"
    else if l.block < MINUTE || l.block > MAX_BLOCK then "block_minutes"
    else ""
  }

  /** `since` is 0 while nothing is counted, and `until` while there never was a block. */
  datatype Entry = Entry(failures: nat, since: Time, until: Time)

  const Fresh := Entry(0, 0, 0)

  type Table = map<string, Entry>

  predicate Running(e: Entry, now: Time) {
    e.until > now
  }

  /** Neither a block nor a count that still matters. */
  predicate RunOut(e: Entry, block: int, now: Time) {
    !Running(e, now) && (e.failures == 0 || now - e.since >= block)
  }

  /** When it started: its first counted failure, or for a block its end. */
  function Started(e: Entry): Time {
    if e.since == 0 then e.until else e.since
  }

  function Remaining(t: Table, key: string, now: Time): int {
    if key in t && Running(t[key], now) then t[key].until - now else 0
  }

  /** What one failure makes of an entry, and whether it starts a block. */
  function Fail(e: Entry, limit: int, block: int, now: Time): (Entry, bool) {
    if Running(e, now) then (e, false)
    else
      var counted := if e.failures == 0 || now - e.since >= block then e.(failures := 0, since := now) else e;
      if counted.failures + 1 < limit then (counted.(failures := counted.failures + 1), false)
      else (Entry(0, 0, now + block), true)
  }

  /** The tables as the clock leaves them: nothing was counted in the future. */
  ghost predicate Sane(t: Table, now: Time) {
    forall k :: k in t ==>
      k != "" && (t[k].failures == 0 <==> t[k].since == 0) && 0 <= t[k].since <= now
      && (Running(t[k], now) ==> t[k].failures == 0)
  }

  lemma SaneLater(t: Table, now: Time, later: Time)
    requires Sane(t, now) && now <= later
    ensures Sane(t, later)
  {
  }

  /** The entries that have not run out. */
  function Standing(t: Table, block: int, now: Time): Table {
    map k | k in t && !RunOut(t[k], block, now) :: t[k]
  }

  ghost predicate Oldest(t: Table, key: string) {
    key in t && forall k :: k in t ==> Started(t[key]) <= Started(t[k])
  }

  /** A full table loses every entry that ran out, and if none did, one: the entry noted longest ago. */
  ghost predicate MadeRoom(t: Table, t': Table, block: int, now: Time) {
    if |t| < MAX_TRACKED then t' == t
    else
      var left := Standing(t, block, now);
      if |left| < MAX_TRACKED then t' == left
      else exists key :: Oldest(left, key) && t' == left - {key}
  }

  /** `normalize` is how names are compared: those it makes equal are one name. */
  class Guard {
    const normalize: string -> string
    var limits: Limits
    var accounts: Table
    var addresses: Table

    constructor (limits_: Limits, normalize_: string -> string)
      ensures limits == limits_ && accounts == map[] && addresses == map[] && normalize == normalize_
    {
      limits, accounts, addresses, normalize := limits_, map[], map[], normalize_;
    }

    ghost predicate Valid(now: Time)
      reads this
    {
      Sane(accounts, now) && Sane(addresses, now) && |accounts| <= MAX_TRACKED && |addresses| <= MAX_TRACKED
    }

    /** New limits from here on; no wait gets shorter or longer by it. */
    method SetLimits(limits_: Limits)
      modifies `limits
      ensures limits == limits_
      ensures forall key, now :: Remaining(accounts, key, now) == Remaining(old(accounts), key, now)
                                 && Remaining(addresses, key, now) == Remaining(old(addresses), key, now)
    {
      limits := limits_;
    }

    /** The wait before another attempt is let through, whichever of the two tables asks for more. */
    method Blocked(account: string, address: string, now: Time) returns (left: int)
      ensures left >= 0
      ensures normalize(account) in accounts ==> now + left >= accounts[normalize(account)].until
      ensures address in addresses ==> now + left >= addresses[address].until
      ensures left > 0 ==> || (normalize(account) in accounts && now + left == accounts[normalize(account)].until)
                           || (address in addresses && now + left == addresses[address].until)
    {
      left := Remaining(accounts, normalize(account), now);
      var byAddress := Remaining(addresses, address, now);
      if byAddress > left {
        left := byAddress;
      }
    }

    /** A wrong password: each of the two tables takes note, and says whether a block starts. */
    method Failed(account: string, address: string, now: Time) returns (byAccount: bool, byAddress: bool)
      requires now > 0 && Valid(now)
      modifies `accounts, `addresses
      ensures Valid(now)
      ensures normalize(account) == "" ==> accounts == old(accounts) && !byAccount
      ensures address == "" ==> addresses == old(addresses) && !byAddress
      ensures normalize(account) != "" ==>
                Counted(old(accounts), accounts, normalize(account), limits.accountFailures, limits.block, now,
                        byAccount)
      ensures address != "" ==>
                Counted(old(addresses), addresses, address, limits.addressFailures, limits.block, now, byAddress)
    {
      byAccount, byAddress := false, false;
      var name := normalize(account);
      if name != "" {
        var table;
        table, byAccount := Count(accounts, name, limits.accountFailures, limits.block, now);
        accounts := table;
      }
      if address != "" {
        var table;
        table, byAddress := Count(addresses, address, limits.addressFailures, limits.block, now);
        addresses := table;
      }
    }

    /** A right password wipes what the name did wrong, and nothing of the address. */
    method Succeeded(account: string)
      modifies `accounts
      ensures accounts == old(accounts) - {normalize(account)}
    {
      accounts := accounts - {normalize(account)};
    }
  }

  /** One failure of one key: room is made if it is new, and its entry counts it. */
  ghost predicate Counted(t: Table, t': Table, key: string, limit: int, block: int, now: Time, blocked: bool) {
    exists room :: (if key in t then room == t else MadeRoom(t, room, block, now))
                   && CountedIn(room, t', key, limit, block, now, blocked)
  }

  ghost predicate CountedIn(room: Table, t': Table, key: string, limit: int, block: int, now: Time, blocked: bool) {
    var e := if key in room then room[key] else Fresh;
    t' == room[key := Fail(e, limit, block, now).0] && blocked == Fail(e, limit, block, now).1
  }

  /**
   * One failure in words. A tracked key's entry counts it and no other entry changes; a new key is counted from
   * nothing. In a block it changes nothing; otherwise it is the first of a new window or one more of the running one,
   * and blocks from now on when that reaches the limit.
   */
  lemma CountedInWords(t: Table, t': Table, key: string, limit: int, block: int, now: Time, blocked: bool)
    requires Counted(t, t', key, limit, block, now, blocked)
    ensures key in t' && (blocked ==> t'[key] == Entry(0, 0, now + block))
    ensures key in t ==>
              var e := t[key];
              var counted := if e.failures == 0 || now - e.since >= block then 1 else e.failures + 1;
              && t' == t[key := t'[key]] && (blocked <==> e.until <= now && counted >= limit)
              && (e.until > now ==> t' == t)
              && (e.until <= now && counted < limit ==>
                    t'[key] == Entry(counted, if counted == 1 then now else e.since, e.until))
    ensures key !in t ==>
              && (blocked <==> limit <= 1 && now >= 0)
              && (!blocked && now > 0 ==> t'[key] == Entry(1, now, 0))
              && forall k :: k in t' && k != key ==> k in t && t'[k] == t[k]
  {
  }

  lemma CountIsSane(room: Table, key: string, limit: int, block: int, now: Time)
    requires now > 0 && key != "" && Sane(room, now)
    ensures var e := if key in room then room[key] else Fresh; Sane(room[key := Fail(e, limit, block, now).0], now)
  {
  }

  method Count(t: Table, key: string, limit: int, block: int, now: Time) returns (t': Table, blocked: bool)
    requires now > 0 && key != "" && Sane(t, now) && |t| <= MAX_TRACKED
    ensures Counted(t, t', key, limit, block, now, blocked)
    ensures Sane(t', now) && |t'| <= MAX_TRACKED
  {
    t' := t;
    var entry := Fresh;
    if key in t' {
      entry := t'[key];
    } else {
      t' := MakeRoom(t', block, now);
      RoomIsMade(t, t', block, now);
    }
    ghost var room := t';
    CountIsSane(room, key, limit, block, now);
    hide MadeRoom, Sane;
    if Running(entry, now) {
      t' := t'[key := entry];
      assert CountedIn(room, t', key, limit, block, now, false);
      return t', false;
    }
    if entry.failures == 0 || now - entry.since >= block {
      entry := entry.(failures := 0, since := now);
    }
    entry := entry.(failures := entry.failures + 1);
    if entry.failures < limit {
      t' := t'[key := entry];
      assert CountedIn(room, t', key, limit, block, now, false);
      return t', false;
    }
    entry := Entry(0, 0, now + block);
    t' := t'[key := entry];
    assert CountedIn(room, t', key, limit, block, now, true);
    return t', true;
  }

  method MakeRoom(t: Table, block: int, now: Time) returns (t': Table)
    requires forall k :: k in t ==> k != ""
    ensures MadeRoom(t, t', block, now)
  {
    t' := t;
    if |t'| < MAX_TRACKED {
      return;
    }
    var order := Rows(t.Keys);
    var oldestKey, oldest := "", 0;
    for i := 0 to |order|
      invariant Weeded(t, t', order[..i], block, now, oldestKey, oldest)
    {
      WeedNext(t, t', order, i, block, now, oldestKey, oldest);
      var key := order[i];
      if RunOut(t'[key], block, now) {
        t' := t' - {key};
      } else {
        var started := Started(t'[key]);
        if oldestKey == "" || started < oldest {
          oldestKey, oldest := key, started;
        }
      }
    }
    assert order[..|order|] == order;
    assert t' == Standing(t, block, now);
    if |t'| >= MAX_TRACKED && oldestKey != "" {
      assert Oldest(t', oldestKey);
      t' := t' - {oldestKey};
    } else if |t'| >= MAX_TRACKED {
      EmptyTable(t');
    }
  }

  lemma EmptyTable(t: Table)
    ensures |t| > 0 ==> exists k :: k in t
  {
  }

  /** Of the keys seen, those that ran out are gone, and the oldest of the rest is known. */
  ghost predicate Weeded(t: Table, t': Table, seen: seq<string>, block: int, now: Time, oldestKey: string,
                         oldest: Time) {
    && (forall k :: k in t' <==> k in t && !(k in seen && RunOut(t[k], block, now)))
    && (forall k :: k in t' ==> t'[k] == t[k])
    && (oldestKey == "" <==> forall k :: k in seen ==> k !in t')
    && (oldestKey != "" ==> oldestKey in t' && oldestKey in seen && oldest == Started(t'[oldestKey])
                            && forall k :: k in seen && k in t' ==> oldest <= Started(t'[k]))
  }

  lemma WeedNext(t: Table, t': Table, order: seq<string>, i: nat, block: int, now: Time, oldestKey: string,
                 oldest: Time)
    requires i < |order| && Lists(order, t.Keys) && (forall k :: k in t ==> k != "")
    requires Weeded(t, t', order[..i], block, now, oldestKey, oldest)
    ensures order[i] in t' && t'[order[i]] == t[order[i]]
    ensures var key := order[i];
            var started := Started(t[key]);
            var older := oldestKey == "" || started < oldest;
            if RunOut(t[key], block, now) then Weeded(t, t' - {key}, order[..i + 1], block, now, oldestKey, oldest)
            else Weeded(t, t', order[..i + 1], block, now, if older then key else oldestKey,
                        if older then started else oldest)
  {
    var key := order[i];
    assert key in order && key !in order[..i];
    assert order[..i + 1] == order[..i] + [key];
    if RunOut(t[key], block, now) {
      var u := t' - {key};
      assert oldestKey != key;
      assert forall k :: k in order[..i + 1] && k in u <==> k in order[..i] && k in t';
    }
  }

  // ------------------------------------------------------------ evictions

  lemma RoomIsMade(t: Table, t': Table, block: int, now: Time)
    requires MadeRoom(t, t', block, now) && |t| <= MAX_TRACKED
    ensures |t'| < MAX_TRACKED && t'.Keys <= t.Keys && forall k :: k in t' ==> t'[k] == t[k]
  {
    var left := Standing(t, block, now);
    assert left.Keys <= t.Keys;
    SubsetSize(left.Keys, t.Keys);
    assert |left| == |left.Keys| && |t| == |t.Keys|;
    if |t| >= MAX_TRACKED && |left| >= MAX_TRACKED {
      var key :| Oldest(left, key) && t' == left - {key};
      assert left.Keys == t'.Keys + {key};
      assert |t'| == |t'.Keys|;
    }
  }

  /**
   * Room in words: a table below its bound stays as it is. A full one loses each entry whose block is over and whose
   * failures, if any, are a whole window old; another goes only when that leaves it full, and is the oldest of those
   * left, by its first counted failure or else by the end of its block.
   */
  lemma RoomInWords(t: Table, t': Table, block: int, now: Time, k: string)
    requires MadeRoom(t, t', block, now) && k in t
    ensures |t| < 10000 ==> t' == t
    ensures |t| >= 10000 && t[k].until <= now && (t[k].failures == 0 || now - t[k].since >= block) ==> k !in t'
    ensures k !in t' && !(t[k].until <= now && (t[k].failures == 0 || now - t[k].since >= block)) ==>
              forall q :: q in t ==>
                var ranOut := t[q].until <= now && (t[q].failures == 0 || now - t[q].since >= block);
                && (|t| == 10000 ==> !ranOut)
                && (!ranOut ==> (if t[k].since == 0 then t[k].until else t[k].since)
                                <= if t[q].since == 0 then t[q].until else t[q].since)
    ensures forall q :: q in t' ==> q in t && t'[q] == t[q]
  {
    var left := Standing(t, block, now);
    if |t| >= 10000 && k in left && k !in t' {
      assert left.Keys <= t.Keys;
      SubsetSize(left.Keys, t.Keys);
      assert |left| == |left.Keys| && |t| == |t.Keys|;
      assert |t| == 10000 ==> left.Keys == t.Keys;
      var key :| Oldest(left, key) && t' == left - {key};
      assert k == key;
      assert forall q :: q in t && !RunOut(t[q], block, now) ==> q in left;
    }
  }

  /**
   * Under whatever limits are in force, making room for a new key drops a running block only when every tracked
   * entry is a running block.
   */
  lemma BlocksGoLast(t: Table, t': Table, block: int, now: Time, key: string)
    requires Sane(t, now) && |t| <= MAX_TRACKED && MadeRoom(t, t', block, now)
    requires key in t && key !in t' && Running(t[key], now)
    ensures |t| == MAX_TRACKED && forall k :: k in t ==> Running(t[k], now)
  {
    var left := Standing(t, block, now);
    assert left.Keys <= t.Keys;
    SubsetSize(left.Keys, t.Keys);
    assert |left| == |left.Keys| && |t| == |t.Keys|;
    assert key in left;
    var evicted :| Oldest(left, evicted) && t' == left - {evicted};
    assert left.Keys == t.Keys;
  }

  /** An entry that has run out counts the next failure as a key that was never tracked would. */
  lemma RunOutIsFresh(e: Entry, limit: int, block: int, now: Time)
    requires RunOut(e, block, now) && now > 0
    ensures Fail(e, limit, block, now).1 == Fail(Fresh, limit, block, now).1
    ensures var (counted, anew) := (Fail(e, limit, block, now).0, Fail(Fresh, limit, block, now).0);
            counted == anew || (counted == anew.(until := e.until) && !Running(counted, now))
  {
  }

  // ------------------------------------------------------- when a block starts

  /**
   * Failures within one window: each is counted and none blocks before the limit; the one that reaches it blocks for
   * exactly the block's length from then, and the count starts over.
   */
  lemma {:induction false} LimitBlocks(e: Entry, ts: seq<Time>, limit: int, block: int)
    requires ts != [] && limit >= |ts| && block > 0 && InOrder(ts) && ts[0] > 0 && ts[|ts| - 1] - ts[0] < block
    requires RunOut(e, block, ts[0])
    ensures var n := |ts| - 1;
            && (n > 0 ==> After(e, ts[..n], limit, block) == Entry(n, ts[0], e.until))
            && Fail(After(e, ts[..n], limit, block), limit, block, ts[n])
               == if |ts| < limit then (Entry(|ts|, ts[0], e.until), false) else (Entry(0, 0, ts[n] + block), true)
    decreases |ts|
  {
    var n := |ts| - 1;
    if n > 0 {
      LimitBlocks(e, ts[..n], limit, block);
      assert ts[..n][..n - 1] == ts[..n - 1];
      AfterOneMore(e, ts[..n], limit, block);
      assert ts[0] <= ts[n - 1] <= ts[n];
    } else {
      assert ts[..0] == [];
    }
  }

  lemma {:induction false} AfterOneMore(e: Entry, ts: seq<Time>, limit: int, block: int)
    requires ts != []
    ensures var n := |ts| - 1;
            After(e, ts, limit, block) == Fail(After(e, ts[..n], limit, block), limit, block, ts[n]).0
    decreases |ts|
  {
    if |ts| > 1 {
      AfterOneMore(Fail(e, limit, block, ts[0]).0, ts[1..], limit, block);
      assert ts[..|ts| - 1][1..] == ts[1..][..|ts| - 2];
    } else {
      assert ts[..0] == [] && ts[1..] == [];
    }
  }

  /** A failure, with the limits in force when it happened. */
  datatype Attempt = Attempt(at: Time, limit: int, block: int)

  ghost function AfterAll(e: Entry, attempts: seq<Attempt>): Entry
    decreases |attempts|
  {
    if attempts == [] then e
    else AfterAll(Fail(e, attempts[0].limit, attempts[0].block, attempts[0].at).0, attempts[1..])
  }

  /** While a block runs, failures change nothing, and it ends when it said, however often the limits change. */
  lemma {:induction false} BlockHolds(e: Entry, attempts: seq<Attempt>)
    requires forall i :: 0 <= i < |attempts| ==> attempts[i].at < e.until
    ensures AfterAll(e, attempts) == e
    decreases |attempts|
  {
    if attempts != [] {
      assert attempts[0].at < e.until;
      forall i | 0 <= i < |attempts[1..]| ensures attempts[1..][i].at < e.until {
        assert attempts[1..][i] == attempts[i + 1];
      }
      BlockHolds(e, attempts[1..]);
    }
  }

  /** Outside a block the limits in force at a failure decide: it blocks exactly when it is at least their limit's. */
  lemma LimitsInForceDecide(e: Entry, limit: int, block: int, now: Time)
    requires !Running(e, now)
    ensures var counted := if e.failures == 0 || now - e.since >= block then 1 else e.failures + 1;
            && (Fail(e, limit, block, now).1 <==> counted >= limit)
            && (Fail(e, limit, block, now).1 ==> Fail(e, limit, block, now).0.until == now + block)
  {
  }

  // ------------------------------------------------------------ the bound

  /** The entry after these failures of its key, with limits fixed and the key neither cleared nor dropped. */
  ghost function After(e: Entry, ts: seq<Time>, limit: int, block: int): Entry
    decreases |ts|
  {
    if ts == [] then e else After(Fail(e, limit, block, ts[0]).0, ts[1..], limit, block)
  }

  /** At none of these failures is a block in force, and none starts one. */
  ghost predicate Quiet(e: Entry, ts: seq<Time>, limit: int, block: int)
    decreases |ts|
  {
    ts != [] ==>
      && !Running(e, ts[0]) && !Fail(e, limit, block, ts[0]).1
      && Quiet(Fail(e, limit, block, ts[0]).0, ts[1..], limit, block)
  }

  ghost predicate InOrder(ts: seq<Time>) {
    forall i, j :: 0 <= i < j < |ts| ==> ts[i] <= ts[j]
  }

  /** In the window the entry already counts. */
  ghost predicate InWindow(e: Entry, block: int, now: Time) {
    e.failures > 0 && now - e.since < block
  }

  /** While they stay in one window, the count and these failures are below the limit together. */
  lemma {:induction false} OneWindow(e: Entry, ts: seq<Time>, limit: int, block: int)
    requires e.failures > 0 && e.failures < limit && Quiet(e, ts, limit, block)
    requires forall i :: 0 <= i < |ts| ==> InWindow(e, block, ts[i])
    ensures e.failures + |ts| < limit
    decreases |ts|
  {
    if ts != [] {
      var next := Fail(e, limit, block, ts[0]).0;
      assert InWindow(e, block, ts[0]);
      forall i | 0 <= i < |ts[1..]| ensures InWindow(next, block, ts[1..][i]) {
        assert InWindow(e, block, ts[i + 1]);
      }
      OneWindow(next, ts[1..], limit, block);
    }
  }

  /** The first failure outside the entry's window opens the next one. */
  lemma {:induction false} NextWindow(e: Entry, ts: seq<Time>, limit: int, block: int) returns (r: nat, next: Entry)
    requires e.failures < limit && block > 0 && InOrder(ts) && Quiet(e, ts, limit, block)
    ensures r <= |ts| && (r > 0 ==> e.failures > 0) && e.failures + r < limit
    ensures forall i :: 0 <= i < r ==> InWindow(e, block, ts[i])
    ensures r < |ts| ==> !InWindow(e, block, ts[r]) && next.failures == 1 && next.since == ts[r] && 1 < limit
                         && Quiet(next, ts[r + 1..], limit, block)
    decreases |ts|
  {
    r, next := 0, e;
    if ts != [] {
      if InWindow(e, block, ts[0]) {
        var after := Fail(e, limit, block, ts[0]).0;
        var k;
        k, next := NextWindow(after, ts[1..], limit, block);
        r := k + 1;
        forall i | 0 <= i < r ensures InWindow(e, block, ts[i]) {
          if i > 0 { assert InWindow(after, block, ts[1..][i - 1]); }
        }
        assert r < |ts| ==> ts[1..][k] == ts[r] && ts[1..][k + 1..] == ts[r + 1..];
      } else {
        next := Fail(e, limit, block, ts[0]).0;
      }
    }
  }

  /** In a span no longer than a block, two failures a whole block apart are its first and its last instant. */
  lemma SameInstant(ts: seq<Time>, r: nat, m: nat, block: int)
    requires InOrder(ts) && r < m < |ts| && ts[|ts| - 1] - ts[0] <= block && ts[m] - ts[r] >= block
    ensures ts[r] == ts[0] && forall i :: m <= i < |ts| ==> ts[i] == ts[m]
  {
  }

  lemma LaterKeepOrder(ts: seq<Time>, n: nat)
    requires InOrder(ts) && n <= |ts|
    ensures InOrder(ts[n..])
  {
  }

  /**
   * In any span no longer than a block in which no block of the key starts or is in force, at most twice one less
   * than the limit of its failures fit, however they fall into windows.
   */
  lemma AtMostTwoWindows(e: Entry, ts: seq<Time>, limit: int, block: int)
    requires e.failures < limit && limit >= 1 && block > 0 && InOrder(ts)
    requires ts != [] ==> ts[|ts| - 1] - ts[0] <= block
    requires Quiet(e, ts, limit, block)
    ensures |ts| <= 2 * (limit - 1)
  {
    hide Quiet, InOrder, InWindow;
    var r, second := NextWindow(e, ts, limit, block);
    if r < |ts| {
      LaterKeepOrder(ts, r + 1);
      var rest := ts[r + 1..];
      var k, third := NextWindow(second, rest, limit, block);
      if k < |rest| {
        var m := r + 1 + k;
        assert rest[k] == ts[m] && rest[k + 1..] == ts[m + 1..];
        OutIsABlockLater(second, block, ts[m]);
        SameInstant(ts, r, m, block);
        OpensAtOnce(e, ts, r, block);
        LastInstant(third, ts, m, limit, block);
      }
    }
  }

  lemma OutIsABlockLater(e: Entry, block: int, now: Time)
    requires e.failures > 0 && !InWindow(e, block, now)
    ensures now - e.since >= block
  {
  }

  /** A failure at the first instant is in the entry's window or opens the next one at once. */
  lemma OpensAtOnce(e: Entry, ts: seq<Time>, r: nat, block: int)
    requires r < |ts| && ts[r] == ts[0] && !InWindow(e, block, ts[r])
    requires forall i :: 0 <= i < r ==> InWindow(e, block, ts[i])
    ensures r == 0
  {
  }

  lemma LastInstant(e: Entry, ts: seq<Time>, m: nat, limit: int, block: int)
    requires m < |ts| && (forall i :: m <= i < |ts| ==> ts[i] == ts[m]) && block > 0
    requires e.failures == 1 && e.since == ts[m] && 1 < limit && Quiet(e, ts[m + 1..], limit, block)
    ensures |ts| - m < limit
  {
    OneWindow(e, ts[m + 1..], limit, block);
  }

  /** `n` failures at the same instant. */
  function Repeated(n: nat, at: Time): (ts: seq<Time>)
    ensures |ts| == n && forall i :: 0 <= i < n ==> ts[i] == at
  {
    seq(n, i => at)
  }

  /** A count that starts now or is a whole block old takes all but one of a window's failures without blocking. */
  lemma {:induction false} FillsWindow(e: Entry, n: nat, at: Time, limit: int, block: int, rest: seq<Time>)
    requires block > 0 && !Running(e, at)
    requires e.failures > 0 && e.since == at && e.failures + n < limit
    requires Quiet(e.(failures := e.failures + n), rest, limit, block)
    ensures Quiet(e, Repeated(n, at) + rest, limit, block)
    decreases n
  {
    var ts := Repeated(n, at) + rest;
    if n == 0 {
      assert ts == rest;
    } else {
      assert ts[0] == at && ts[1..] == Repeated(n - 1, at) + rest;
      FillsWindow(e.(failures := e.failures + 1), n - 1, at, limit, block, rest);
    }
  }

  lemma OpensWindow(e: Entry, n: nat, at: Time, limit: int, block: int, rest: seq<Time>)
    requires block > 0 && at > 0 && RunOut(e, block, at) && n < limit
    requires n > 0 ==> Quiet(Entry(n, at, e.until), rest, limit, block)
    requires n == 0 ==> Quiet(e, rest, limit, block)
    ensures Quiet(e, Repeated(n, at) + rest, limit, block)
  {
    var ts := Repeated(n, at) + rest;
    if n == 0 {
      assert ts == rest;
    } else {
      assert ts[0] == at && ts[1..] == Repeated(n - 1, at) + rest;
      FillsWindow(Entry(1, at, e.until), n - 1, at, limit, block, rest);
    }
  }

  /** That many failures, in two bursts a block apart. */
  ghost predicate TwoBursts(ts: seq<Time>, limit: int, block: int, start: Time) {
    && InOrder(ts) && |ts| == 2 * (limit - 1) && Quiet(Fresh, ts, limit, block)
    && forall i :: 0 <= i < |ts| ==> start <= ts[i] <= start + block
  }

  lemma BurstsAreQuiet(n: nat, block: int, start: Time)
    requires block > 0 && start > 0
    ensures Quiet(Fresh, Repeated(n, start) + Repeated(n, start + block), n + 1, block)
  {
    var second := Repeated(n, start + block);
    assert second == Repeated(n, start + block) + [];
    var full := if n > 0 then Entry(n, start, 0) else Fresh;
    var more := if n > 0 then Entry(n, start + block, 0) else Fresh;
    assert Quiet(more, [], n + 1, block);
    hide Quiet;
    OpensWindow(full, n, start + block, n + 1, block, []);
    OpensWindow(Fresh, n, start, n + 1, block, second);
  }

  /** And that many do, under every limit: a window full of failures at once, and another a block later. */
  lemma TheBoundIsReached(limit: int, block: int, start: Time)
    requires limit >= 1 && block > 0 && start > 0
    ensures exists ts: seq<Time> :: TwoBursts(ts, limit, block, start)
  {
    hide Quiet;
    var n := limit - 1;
    BurstsAreQuiet(n, block, start);
    assert TwoBursts(Repeated(n, start) + Repeated(n, start + block), limit, block, start);
  }

  // ---------------------------------------------------- the bound in a table

  /** What happens to one table of the guard. */
  datatype Event = Failure(key: string, at: Time) | Success(key: string)

  ghost predicate Happens(t: Table, e: Event, t': Table, limit: int, block: int) {
    match e
    case Failure(key, at) => exists blocked :: Counted(t, t', key, limit, block, at, blocked)
    case Success(key) => t' == t - {key}
  }

  /** A table from empty on, under fixed limits and a clock that never goes back. */
  ghost predicate History(ts: seq<Table>, es: seq<Event>, limit: int, block: int) {
    && |ts| == |es| + 1 && ts[0] == map[]
    && (forall i :: 0 <= i < |es| ==> Happens(ts[i], es[i], ts[i + 1], limit, block))
    && (forall i, j :: 0 <= i < j < |es| && es[i].Failure? && es[j].Failure? ==> es[i].at <= es[j].at)
  }

  function EntryOf(t: Table, key: string): Entry {
    if key in t then t[key] else Fresh
  }

  lemma EventKeepsCounts(t: Table, e: Event, t': Table, limit: int, block: int)
    requires limit >= 1 && Happens(t, e, t', limit, block) && forall k :: k in t ==> t[k].failures < limit
    ensures forall k :: k in t' ==> t'[k].failures < limit
  {
    if e.Failure? {
      var blocked :| Counted(t, t', e.key, limit, block, e.at, blocked);
      var room :| (if e.key in t then room == t else MadeRoom(t, room, block, e.at))
                  && CountedIn(room, t', e.key, limit, block, e.at, blocked);
      RoomIsPart(t, room, block, e.at);
    }
  }

  lemma RoomIsPart(t: Table, room: Table, block: int, now: Time)
    ensures room == t || MadeRoom(t, room, block, now) ==> forall k :: k in room ==> k in t && room[k] == t[k]
  {
  }

  /** Under fixed limits no count in a table ever reaches the limit. */
  lemma {:induction false} CountsStayBelow(ts: seq<Table>, es: seq<Event>, limit: int, block: int, i: nat)
    requires History(ts, es, limit, block) && limit >= 1 && i < |ts|
    ensures forall k :: k in ts[i] ==> ts[i][k].failures < limit
  {
    hide Happens;
    if i > 0 {
      CountsStayBelow(ts, es, limit, block, i - 1);
      EventKeepsCounts(ts[i - 1], es[i - 1], ts[i], limit, block);
    }
  }

  /** One event as this key's entry sees it: its own failure counts it, and another's leaves it unless it evicts it. */
  lemma EventOnKey(t: Table, e: Event, t': Table, limit: int, block: int, key: string)
    requires Happens(t, e, t', limit, block) && !(e.Success? && e.key == key) && (key in t ==> key in t')
    ensures EntryOf(t', key)
            == if e.key == key then Fail(EntryOf(t, key), limit, block, e.at).0 else EntryOf(t, key)
  {
    if e.Failure? {
      var blocked :| Counted(t, t', e.key, limit, block, e.at, blocked);
      var room :| (if e.key in t then room == t else MadeRoom(t, room, block, e.at))
                  && CountedIn(room, t', e.key, limit, block, e.at, blocked);
      RoomIsPart(t, room, block, e.at);
    }
  }

  /** The times at which this key failed. */
  function TimesOf(es: seq<Event>, key: string): seq<Time> {
    if es == [] then []
    else (if es[0].Failure? && es[0].key == key then [es[0].at] else []) + TimesOf(es[1..], key)
  }

  /** From `i` to `j` the key is neither cleared nor evicted, and no block of it starts or is in force. */
  ghost predicate Undisturbed(ts: seq<Table>, es: seq<Event>, limit: int, block: int, key: string, i: nat, j: nat)
    requires j <= |es| && |ts| == |es| + 1
  {
    && (forall m :: i <= m < j ==> !(es[m].Success? && es[m].key == key) && (key in ts[m] ==> key in ts[m + 1]))
    && (forall m :: i <= m < j && es[m].Failure? && es[m].key == key ==>
          var e := EntryOf(ts[m], key); !Running(e, es[m].at) && !Fail(e, limit, block, es[m].at).1)
  }

  lemma {:induction false} TableIsQuiet(ts: seq<Table>, es: seq<Event>, limit: int, block: int, key: string,
                                        i: nat, j: nat)
    requires History(ts, es, limit, block) && i <= j <= |es| && Undisturbed(ts, es, limit, block, key, i, j)
    ensures Quiet(EntryOf(ts[i], key), TimesOf(es[i..j], key), limit, block)
    decreases j - i
  {
    if i < j {
      assert es[i..j][0] == es[i] && es[i..j][1..] == es[i + 1..j];
      TableIsQuiet(ts, es, limit, block, key, i + 1, j);
      hide Happens, Fail, Running;
      EventOnKey(ts[i], es[i], ts[i + 1], limit, block, key);
      var times, rest := TimesOf(es[i..j], key), TimesOf(es[i + 1..j], key);
      if es[i].Failure? && es[i].key == key {
        assert times[0] == es[i].at && times[1..] == rest;
      } else {
        assert times == rest;
      }
    } else {
      assert es[i..j] == [];
    }
  }

  /** The times of a key's failures are in order and are times of the history. */
  lemma {:induction false} TimesAreInOrder(es: seq<Event>, key: string)
    requires forall i, j :: 0 <= i < j < |es| && es[i].Failure? && es[j].Failure? ==> es[i].at <= es[j].at
    ensures InOrder(TimesOf(es, key))
    ensures forall n :: 0 <= n < |TimesOf(es, key)| ==> FailsAt(es, key, TimesOf(es, key)[n])
  {
    if es != [] {
      var rest := TimesOf(es[1..], key);
      TimesAreInOrder(es[1..], key);
      forall n | 0 <= n < |rest| ensures FailsAt(es, key, rest[n]) && (es[0].Failure? ==> es[0].at <= rest[n]) {
        FailsLater(es, key, rest[n]);
      }
      hide InOrder, FailsAt;
      if es[0].Failure? && es[0].key == key {
        FailsFirst(es, key);
        OneBefore(es[0].at, rest);
      }
    }
  }

  lemma FailsLater(es: seq<Event>, key: string, at: Time)
    requires es != [] && FailsAt(es[1..], key, at)
    requires forall j :: 0 < j < |es| && es[0].Failure? && es[j].Failure? ==> es[0].at <= es[j].at
    ensures FailsAt(es, key, at) && (es[0].Failure? ==> es[0].at <= at)
  {
    var m :| 0 <= m < |es[1..]| && es[1..][m] == Failure(key, at);
    assert es[m + 1] == Failure(key, at);
  }

  lemma FailsFirst(es: seq<Event>, key: string)
    requires es != [] && es[0].Failure? && es[0].key == key
    ensures FailsAt(es, key, es[0].at)
  {
    assert es[0] == Failure(key, es[0].at);
  }

  lemma OneBefore(t: Time, ts: seq<Time>)
    requires InOrder(ts) && forall n :: 0 <= n < |ts| ==> t <= ts[n]
    ensures InOrder([t] + ts)
  {
  }

  ghost predicate FailsAt(es: seq<Event>, key: string, at: Time) {
    exists m :: 0 <= m < |es| && es[m] == Failure(key, at)
  }

  /**
   * In every history of a table, whatever happens to other keys: in a span no longer than a block in which a key is
   * neither cleared nor evicted, and no block of it starts or is in force, at most twice one less than the limit of
   * its failures fit.
   */
  lemma AtMostTwoWindowsInTable(ts: seq<Table>, es: seq<Event>, limit: int, block: int, key: string, i: nat, j: nat)
    requires History(ts, es, limit, block) && limit >= 1 && block > 0 && i <= j <= |es|
    requires Undisturbed(ts, es, limit, block, key, i, j)
    requires forall m, n :: i <= m <= n < j && es[m].Failure? && es[n].Failure? && es[m].key == es[n].key == key ==>
               es[n].at - es[m].at <= block
    ensures |TimesOf(es[i..j], key)| <= 2 * (limit - 1)
  {
    hide Happens, Fail, Running, Quiet;
    CountsStayBelow(ts, es, limit, block, i);
    TableIsQuiet(ts, es, limit, block, key, i, j);
    TimesAreInOrder(es[i..j], key);
    var times := TimesOf(es[i..j], key);
    if times != [] {
      assert FailsAt(es[i..j], key, times[0]) && FailsAt(es[i..j], key, times[|times| - 1]);
      SpanFits(es, i, j, key, block, times[0], times[|times| - 1]);
    }
    AtMostTwoWindows(EntryOf(ts[i], key), times, limit, block);
  }

  lemma SpanFits(es: seq<Event>, i: nat, j: nat, key: string, block: int, first: Time, last: Time)
    requires i <= j <= |es| && FailsAt(es[i..j], key, first) && FailsAt(es[i..j], key, last)
    requires first <= last && block > 0
    requires forall m, n :: 0 <= m < n < |es| && es[m].Failure? && es[n].Failure? ==> es[m].at <= es[n].at
    requires forall m, n :: i <= m <= n < j && es[m].Failure? && es[n].Failure? && es[m].key == es[n].key == key ==>
               es[n].at - es[m].at <= block
    ensures last - first <= block
  {
    var m :| 0 <= m < |es[i..j]| && es[i..j][m] == Failure(key, first);
    var n :| 0 <= n < |es[i..j]| && es[i..j][n] == Failure(key, last);
    assert es[i + m] == Failure(key, first) && es[i + n] == Failure(key, last);
  }
}
