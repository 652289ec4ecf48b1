/**
  The rolling window of recently received transactions kept by `Bank`:
  the coins-received listener appends fresh transactions, and every tick of
  the poll loop removes the ones older than the retention period.
 */
module RecentTransactions {

  /** The retention period: 24 hours in milliseconds. */
  const RECENT_PERIOD: int := 24 * 60 * 60 * 1000

  /** A received transaction as the window sees it: its hash and its update time in ms. */
  datatype TxRecord = TxRecord(hash: string, updateTime: int)

  /** The status line the poll loop prints each tick. */
  datatype Status = Status(balance: int, chainHeight: int, peers: nat)

  /**
    The freshness test shared by the listener and the prune step. A record whose
    age is exactly the period, or whose time lies in the future, is recent.
   */
  predicate IsRecent(tx: TxRecord, now: int)
  {
    now - tx.updateTime <= RECENT_PERIOD
  }

  /** The records that a prune at `now` keeps, in their original order. */
  function Pruned(s: seq<TxRecord>, now: int): (r: seq<TxRecord>)
    ensures |r| <= |s|
    ensures forall i :: 0 <= i < |r| ==> IsRecent(r[i], now)
  {
    if s == [] then []
    else if IsRecent(s[0], now) then [s[0]] + Pruned(s[1..], now)
    else Pruned(s[1..], now)
  }

  /** `sub` is obtained from `s` by deleting some elements, keeping the order of the rest. */
  predicate IsSubsequence<T(==)>(sub: seq<T>, s: seq<T>)
    decreases |s|
  {
    if sub == [] then true
    else if s == [] then false
    else (sub[0] == s[0] && IsSubsequence(sub[1..], s[1..])) || IsSubsequence(sub, s[1..])
  }

  /** Pruning a concatenation prunes each part. */
  lemma {:induction false} PrunedAppend(a: seq<TxRecord>, b: seq<TxRecord>, now: int)
    ensures Pruned(a + b, now) == Pruned(a, now) + Pruned(b, now)
  {
    if a == [] {
      assert a + b == b;
    } else {
      assert (a + b)[1..] == a[1..] + b;
      PrunedAppend(a[1..], b, now);
    }
  }

  /** A record survives a prune if and only if it was there and is recent. */
  lemma {:induction false} PrunedMembership(s: seq<TxRecord>, now: int, x: TxRecord)
    ensures x in Pruned(s, now) <==> x in s && IsRecent(x, now)
  {
    if s != [] {
      PrunedMembership(s[1..], now, x);
      assert s == [s[0]] + s[1..];
    }
  }

  /**
    Exactly the recent records are kept, each as often as it occurred:
    nothing recent is removed and nothing stale remains.
   */
  lemma {:induction false} PrunedCount(s: seq<TxRecord>, now: int, x: TxRecord)
    ensures multiset(Pruned(s, now))[x] == if IsRecent(x, now) then multiset(s)[x] else 0
  {
    if s != [] {
      PrunedCount(s[1..], now, x);
      assert s == [s[0]] + s[1..];
    }
  }

  /** Every record a prune removes is stale. */
  lemma PrunedRemovesOnlyStale(s: seq<TxRecord>, now: int, x: TxRecord)
    requires x in multiset(s) - multiset(Pruned(s, now))
    ensures !IsRecent(x, now)
  {
    PrunedCount(s, now, x);
  }

  /** The kept records appear in the same relative order as before. */
  lemma {:induction false} PrunedIsSubsequence(s: seq<TxRecord>, now: int)
    ensures IsSubsequence(Pruned(s, now), s)
  {
    if s != [] {
      PrunedIsSubsequence(s[1..], now);
      if IsRecent(s[0], now) {
        assert Pruned(s, now)[1..] == Pruned(s[1..], now);
      }
    }
  }

  /** A window whose records are all recent is left as it is. */
  lemma {:induction false} PrunedAllRecent(s: seq<TxRecord>, now: int)
    requires forall i :: 0 <= i < |s| ==> IsRecent(s[i], now)
    ensures Pruned(s, now) == s
  {
    if s != [] {
      PrunedAllRecent(s[1..], now);
    }
  }

  /** Pruning at a later time after pruning at an earlier one is the same as pruning once, later. */
  lemma {:induction false} PrunedLater(s: seq<TxRecord>, earlier: int, later: int)
    requires earlier <= later
    ensures Pruned(Pruned(s, earlier), later) == Pruned(s, later)
  {
    if s != [] {
      PrunedLater(s[1..], earlier, later);
    }
  }

  /** Pruning twice at the same time, with no insertion between, is pruning once. */
  lemma PrunedIdempotent(s: seq<TxRecord>, now: int)
    ensures Pruned(Pruned(s, now), now) == Pruned(s, now)
  {
    PrunedAllRecent(Pruned(s, now), now);
  }

  /** A transaction the listener admits at `now` survives a prune at the same instant. */
  lemma ReceivedSurvivesPrune(s: seq<TxRecord>, tx: TxRecord, now: int)
    requires IsRecent(tx, now)
    ensures Pruned(s + [tx], now) == Pruned(s, now) + [tx]
  {
    PrunedAppend(s, [tx], now);
  }

  /** The retention boundary: age equal to the period is kept, one millisecond more is not. */
  lemma RetentionBoundary(hash: string, t: int)
    ensures IsRecent(TxRecord(hash, t), t + RECENT_PERIOD)
    ensures !IsRecent(TxRecord(hash, t), t + RECENT_PERIOD + 1)
    ensures IsRecent(TxRecord(hash, t), t - 1)
    ensures RECENT_PERIOD == 86_400_000
  {
  }

  /** The static `recentTransactions` list of `Bank`, with the operations that change it. */
  class RecentWindow {
    var transactions: seq<TxRecord>

    constructor ()
      ensures transactions == []
    {
      transactions := [];
    }

    /** Every record in the window is recent at `now`. */
    predicate AllRecent(now: int)
      reads this
    {
      forall i :: 0 <= i < |transactions| ==> IsRecent(transactions[i], now)
    }

    /**
      The coins-received listener: a transaction is appended, after all the
      existing ones, exactly when it is recent; `tracked` says whether it was
      (the source then prints its hash). A stale transaction is not recorded.
     */
    method OnCoinsReceived(now: int, tx: TxRecord) returns (tracked: bool)
      modifies this
      ensures tracked == IsRecent(tx, now)
      ensures tracked ==> transactions == old(transactions) + [tx]
      ensures !tracked ==> transactions == old(transactions)
    {
      tracked := now - tx.updateTime <= RECENT_PERIOD;
      if tracked {
        transactions := transactions + [tx];
      }
    }

    /** `removeIf` with the staleness test: removes exactly the records older than the period. */
    method Prune(now: int)
      modifies this
      ensures transactions == Pruned(old(transactions), now)
      ensures AllRecent(now)
    {
      var s := transactions;
      var kept: seq<TxRecord> := [];
      var i := 0;
      while i < |s|
        invariant 0 <= i <= |s|
        invariant kept == Pruned(s[..i], now)
      {
        var tx := s[i];
        assert s[..i + 1] == s[..i] + [tx];
        PrunedAppend(s[..i], [tx], now);
        if !(now - tx.updateTime > RECENT_PERIOD) {
          kept := kept + [tx];
        }
        i := i + 1;
      }
      assert s[..i] == s;
      transactions := kept;
    }

    /**
      One pass of the poll loop: report the balance, chain height and peer
      count read from the engine, then prune the window at `now`.
     */
    method Tick(now: int, balance: int, chainHeight: int, peers: nat) returns (status: Status)
      modifies this
      ensures status == Status(balance, chainHeight, peers)
      ensures transactions == Pruned(old(transactions), now)
      ensures AllRecent(now)
    {
      status := Status(balance, chainHeight, peers);
      Prune(now);
    }
  }
}
