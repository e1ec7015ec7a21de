/** The swap-window monitor: a list of decoded swaps kept in place, filled from the pool's history,
    extended by each new swap and compacted to a time window. The RPC calls are replaced by their
    results (the logs, and the timestamp of each log's block) and the clock by a parameter now. */
module SwapMonitor {
  import opened Utils

  /** The fields of a Swap event log, amounts already converted from wei. */
  datatype RawLog = RawLog(amount0In: real, amount1In: real, amount0Out: real, amount1Out: real, to: string)

  /** A log with the timestamp (milliseconds) of its block. */
  datatype StampedLog = StampedLog(log: RawLog, timestamp: real)

  datatype Swap = Swap(amountIn: real, amountOut: real, isBuy: bool, to: string, timestamp: real)

  const MS_PER_MINUTE: real := 60.0 * 1000.0

  /** currentTimestamp - timestamp < windowSizeMin * 60 * 1000; a NaN timestamp makes the
      difference NaN, and every comparison with NaN is false. */
  function CheckIsInWindow(windowSizeMin: real, timestamp: Num, now: real): (inWindow: bool)
    ensures timestamp.NaN? ==> !inWindow
    ensures timestamp.Finite? ==> (inWindow <==> now - timestamp.value < windowSizeMin * MS_PER_MINUTE)
  {
    timestamp.Finite? && now - timestamp.value < windowSizeMin * MS_PER_MINUTE
  }

  /** What checkIsInWindow receives when handed a whole swap record: an object, which the
      subtraction converts to NaN. */
  function RecordAsNumber(tx: Swap): Num
  {
    NaN
  }

  /** What it receives when handed the record's timestamp. */
  function TimestampOf(tx: Swap): Num
  {
    Finite(tx.timestamp)
  }

  /** One swap decoded from a stamped log. */
  function ToSwap(s: StampedLog): Swap
  {
    var l := s.log;
    Swap(l.amount0In + l.amount1In, l.amount0Out + l.amount1Out, l.amount0In > l.amount0Out, l.to, s.timestamp)
  }

  // ---------------------------------------------------------------------------------------
  // Net token volume

  /** The token volume one swap adds: what a buy took out, minus what a sell put in. */
  function Contribution(tx: Swap): real
  {
    if tx.isBuy then tx.amountOut else -tx.amountIn
  }

  /** The sum of the contributions, accumulated from the front. */
  function NetVolume(txs: seq<Swap>): real
  {
    if txs == [] then 0.0 else NetVolume(txs[..|txs| - 1]) + Contribution(txs[|txs| - 1])
  }

  /** Net volume is additive over concatenation, so it does not depend on how the list is split. */
  lemma {:induction false} NetVolumeAppend(a: seq<Swap>, b: seq<Swap>)
    ensures NetVolume(a + b) == NetVolume(a) + NetVolume(b)
    decreases |b|
  {
    if b == [] {
      assert a + b == a;
    } else {
      assert (a + b)[..|a + b| - 1] == a + b[..|b| - 1];
      NetVolumeAppend(a, b[..|b| - 1]);
    }
  }

  /** A window of only buys has a net volume that is the total bought; a single sell counts
      negatively. */
  lemma NetVolumeSingle(tx: Swap)
    ensures NetVolume([tx]) == Contribution(tx)
    ensures tx.isBuy ==> NetVolume([tx]) == tx.amountOut
    ensures !tx.isBuy ==> NetVolume([tx]) == -tx.amountIn
  {
    assert [tx][..0] == [];
  }

  // ---------------------------------------------------------------------------------------
  // Window compaction

  /** The in-window entries of txs, in order, where stamp says what the window test receives. */
  function Filter(txs: seq<Swap>, windowSizeMin: real, now: real, stamp: Swap -> Num): (kept: seq<Swap>)
    ensures |kept| <= |txs|
    ensures forall t :: t in kept ==> CheckIsInWindow(windowSizeMin, stamp(t), now)
  {
    if txs == [] then []
    else
      var last := txs[|txs| - 1];
      Filter(txs[..|txs| - 1], windowSizeMin, now, stamp)
        + (if CheckIsInWindow(windowSizeMin, stamp(last), now) then [last] else [])
  }

  /** Filtering keeps exactly the in-window entries and never repeats one. */
  lemma {:induction false} FilterFacts(txs: seq<Swap>, windowSizeMin: real, now: real, stamp: Swap -> Num)
    ensures var kept := Filter(txs, windowSizeMin, now, stamp);
      && |kept| <= |txs|
      && multiset(kept) <= multiset(txs)
      && forall t :: t in kept <==> t in txs && CheckIsInWindow(windowSizeMin, stamp(t), now)
    decreases |txs|
  {
    if txs != [] {
      var init, last := txs[..|txs| - 1], txs[|txs| - 1];
      assert txs == init + [last];
      FilterFacts(init, windowSizeMin, now, stamp);
    }
  }

  /** An in-window entry appended to the list is kept. */
  lemma FilterKeeps(txs: seq<Swap>, tx: Swap, windowSizeMin: real, now: real, stamp: Swap -> Num)
    requires CheckIsInWindow(windowSizeMin, stamp(tx), now)
    ensures Filter(txs + [tx], windowSizeMin, now, stamp) == Filter(txs, windowSizeMin, now, stamp) + [tx]
  {
    assert (txs + [tx])[..|txs|] == txs;
  }

  /** moveWindow's shape: when the list is longer than min, the kept entries among the first
      len - min, followed by the entries from index min to the end. */
  function Compact(txs: seq<Swap>, min: nat, windowSizeMin: real, now: real, stamp: Swap -> Num): (r: seq<Swap>)
    ensures |txs| <= min ==> r == txs
    ensures |txs| > min ==> |txs| - min <= |r| <= 2 * (|txs| - min) && r[|r| - (|txs| - min)..] == txs[min..]
  {
    if |txs| > min then Filter(txs[..|txs| - min], windowSizeMin, now, stamp) + txs[min..] else txs
  }

  /** A window test handed whole records keeps nothing. */
  lemma {:induction false} NothingKeptAsWritten(txs: seq<Swap>, windowSizeMin: real, now: real)
    ensures Filter(txs, windowSizeMin, now, RecordAsNumber) == []
    decreases |txs|
  {
    if txs != [] {
      NothingKeptAsWritten(txs[..|txs| - 1], windowSizeMin, now);
    }
  }

  /** As written the window test never holds, so compaction just drops the first min entries,
      whatever their timestamps. */
  lemma MoveWindowAsWritten(txs: seq<Swap>, min: nat, windowSizeMin: real, now: real)
    ensures |txs| <= min ==> Compact(txs, min, windowSizeMin, now, RecordAsNumber) == txs
    ensures |txs| > min ==> Compact(txs, min, windowSizeMin, now, RecordAsNumber) == txs[min..]
    ensures |txs| > min ==> |Compact(txs, min, windowSizeMin, now, RecordAsNumber)| == |txs| - min
  {
    if |txs| > min {
      NothingKeptAsWritten(txs[..|txs| - min], windowSizeMin, now);
    }
  }

  /** Consequently a list of three fresh swaps compacted with min = 2 keeps one swap, fewer than
      the minimum sample. */
  lemma MoveWindowBelowMinimum(a: Swap, b: Swap, c: Swap, windowSizeMin: real, now: real)
    ensures |Compact([a, b, c], 2, windowSizeMin, now, RecordAsNumber)| == 1 < 2
  {
    MoveWindowAsWritten([a, b, c], 2, windowSizeMin, now);
  }

  /** Even with the timestamp passed, the second loop starting at min repeats the middle entries:
      three in-window swaps with min = 1 become four. */
  lemma MoveWindowRepeats(a: Swap, b: Swap, c: Swap, windowSizeMin: real, now: real)
    requires CheckIsInWindow(windowSizeMin, TimestampOf(a), now)
    requires CheckIsInWindow(windowSizeMin, TimestampOf(b), now)
    ensures Compact([a, b, c], 1, windowSizeMin, now, TimestampOf) == [a, b, b, c]
  {
    var txs := [a, b, c];
    FilterKeeps([], a, windowSizeMin, now, TimestampOf);
    assert [] + [a] == [a];
    FilterKeeps([a], b, windowSizeMin, now, TimestampOf);
    assert [a] + [b] == [a, b] == txs[..2];
    assert Filter(txs[..2], windowSizeMin, now, TimestampOf) == [a, b];
    assert txs[1..] == [b, c];
    assert Compact(txs, 1, windowSizeMin, now, TimestampOf) == [a, b] + [b, c];
  }

  /** Whatever the window test, the newest entry survives compaction as the last one. */
  lemma CompactKeepsNewest(txs: seq<Swap>, tx: Swap, min: nat, windowSizeMin: real, now: real, stamp: Swap -> Num)
    ensures var r := Compact(txs + [tx], min, windowSizeMin, now, stamp); |r| > 0 && r[|r| - 1] == tx
  {
  }

  /** The compaction evidently intended: the in-window entries among the first len - min, followed
      by the last min entries. It never repeats an entry, keeps at least min of them, keeps the
      newest min, and drops exactly the out-of-window entries of the older part. */
  function IntendedCompact(txs: seq<Swap>, min: nat, windowSizeMin: real, now: real): (r: seq<Swap>)
    ensures |txs| <= min ==> r == txs
    ensures |txs| > min ==> |r| >= min && r[|r| - min..] == txs[|txs| - min..]
    ensures multiset(r) <= multiset(txs)
    ensures |txs| > min ==> forall t :: t in r <==>
              t in txs[|txs| - min..] || (t in txs[..|txs| - min] && CheckIsInWindow(windowSizeMin, TimestampOf(t), now))
  {
    if |txs| > min then
      var older, newest := txs[..|txs| - min], txs[|txs| - min..];
      assert txs == older + newest;
      FilterFacts(older, windowSizeMin, now, TimestampOf);
      Filter(older, windowSizeMin, now, TimestampOf) + newest
    else txs
  }

  // ---------------------------------------------------------------------------------------
  // The monitor

  class Monitor {
    var transactions: seq<Swap>
    /** config.windowSizeMin */
    const windowSizeMin: real
    /** MIN_LATEST_TX_AMOUNT, whose value is not part of this model. */
    const minLatestTxAmount: nat

    constructor(windowSizeMin: real, minLatestTxAmount: nat)
      ensures transactions == []
      ensures this.windowSizeMin == windowSizeMin && this.minLatestTxAmount == minLatestTxAmount
    {
      transactions := [];
      this.windowSizeMin := windowSizeMin;
      this.minLatestTxAmount := minLatestTxAmount;
    }

    /** One swap per log, in order: amounts in and out summed over both tokens, a buy when more of
        token 0 came in than went out. */
    method PreprocessLogs(logs: seq<StampedLog>) returns (swaps: seq<Swap>)
      ensures |swaps| == |logs|
      ensures forall i :: 0 <= i < |logs| ==> swaps[i] == ToSwap(logs[i])
      ensures forall i :: 0 <= i < |logs| ==>
        && swaps[i].amountIn == logs[i].log.amount0In + logs[i].log.amount1In
        && swaps[i].amountOut == logs[i].log.amount0Out + logs[i].log.amount1Out
        && (swaps[i].isBuy <==> logs[i].log.amount0In > logs[i].log.amount0Out)
        && swaps[i].to == logs[i].log.to && swaps[i].timestamp == logs[i].timestamp
    {
      swaps := [];
      for i := 0 to |logs|
        invariant |swaps| == i
        invariant forall k :: 0 <= k < i ==> swaps[k] == ToSwap(logs[k])
      {
        var log := logs[i].log;
        var amount0In, amount1In := log.amount0In, log.amount1In;
        var amount0Out, amount1Out := log.amount0Out, log.amount1Out;
        var swap := Swap(amount0In + amount1In, amount0Out + amount1Out, amount0In > amount0Out, log.to, logs[i].timestamp);
        swaps := swaps + [swap];
      }
    }

    /** The net token volume of the current window. */
    method CalcTokenVolume() returns (tokenVolume: real)
      ensures tokenVolume == NetVolume(transactions)
    {
      tokenVolume := 0.0;
      for i := 0 to |transactions|
        invariant tokenVolume == NetVolume(transactions[..i])
      {
        assert transactions[..i + 1][..i] == transactions[..i];
        if transactions[i].isBuy {
          tokenVolume := tokenVolume + transactions[i].amountOut;
        } else {
          tokenVolume := tokenVolume - transactions[i].amountIn;
        }
      }
      assert transactions[..|transactions|] == transactions;
    }

    /** The selection loop of loadHistoryTransactions: walks the logs from the newest, stamping
        each with its block's time, and stops at the first out-of-window log met once min logs are
        kept. The result is a newest-first run of the logs, every kept log is in the window or was
        needed for the minimum sample, and the walk ended at the oldest log or at an
        out-of-window log with the sample complete. */
    method SelectHistory(logs: seq<RawLog>, stamps: seq<real>, now: real) returns (selected: seq<StampedLog>)
      requires |stamps| == |logs|
      ensures |selected| <= |logs|
      ensures forall k :: 0 <= k < |selected| ==>
        selected[k] == StampedLog(logs[|logs| - 1 - k], stamps[|logs| - 1 - k])
      ensures forall k :: 0 <= k < |selected| ==>
        k < minLatestTxAmount || CheckIsInWindow(windowSizeMin, Finite(selected[k].timestamp), now)
      ensures |selected| < |logs| ==>
        |selected| >= minLatestTxAmount
        && !CheckIsInWindow(windowSizeMin, Finite(stamps[|logs| - 1 - |selected|]), now)
      ensures |selected| >= minLatestTxAmount || |selected| == |logs|
    {
      var ix := |logs| - 1;
      selected := [];
      while ix >= 0
        invariant -1 <= ix < |logs| && |selected| == |logs| - 1 - ix
        invariant forall k :: 0 <= k < |selected| ==>
          selected[k] == StampedLog(logs[|logs| - 1 - k], stamps[|logs| - 1 - k])
        invariant forall k :: 0 <= k < |selected| ==>
          k < minLatestTxAmount || CheckIsInWindow(windowSizeMin, Finite(selected[k].timestamp), now)
      {
        var txTimestamp := stamps[ix];
        if !CheckIsInWindow(windowSizeMin, Finite(txTimestamp), now) {
          if |selected| < minLatestTxAmount {
            selected := selected + [StampedLog(logs[ix], txTimestamp)];
          } else {
            break;
          }
        } else {
          selected := selected + [StampedLog(logs[ix], txTimestamp)];
        }
        ix := ix - 1;
      }
    }

    /** loadHistoryTransactions: the window becomes the decoded selection, newest first; the net
        volume of the new window is returned. */
    method LoadHistoryTransactions(logs: seq<RawLog>, stamps: seq<real>, now: real) returns (tokenVolume: real)
      requires |stamps| == |logs|
      modifies this`transactions
      ensures |transactions| <= |logs|
      ensures forall k :: 0 <= k < |transactions| ==>
        transactions[k] == ToSwap(StampedLog(logs[|logs| - 1 - k], stamps[|logs| - 1 - k]))
      ensures forall k :: 0 <= k < |transactions| ==>
        k < minLatestTxAmount || CheckIsInWindow(windowSizeMin, Finite(transactions[k].timestamp), now)
      ensures |transactions| < |logs| ==>
        |transactions| >= minLatestTxAmount
        && !CheckIsInWindow(windowSizeMin, Finite(stamps[|logs| - 1 - |transactions|]), now)
      ensures tokenVolume == NetVolume(transactions)
    {
      var txsFilteredByTime := SelectHistory(logs, stamps, now);
      var processedLogs := PreprocessLogs(txsFilteredByTime);
      transactions := processedLogs;
      tokenVolume := CalcTokenVolume();
    }

    /** moveWindow as written (the whole record handed to the window test). */
    method MoveWindow(now: real)
      modifies this`transactions
      ensures transactions == Compact(old(transactions), minLatestTxAmount, windowSizeMin, now, RecordAsNumber)
    {
      if |transactions| > minLatestTxAmount {
        var txToLeave := [];
        var i := 0;
        while i < |transactions| - minLatestTxAmount
          invariant 0 <= i <= |transactions| - minLatestTxAmount
          invariant txToLeave == Filter(transactions[..i], windowSizeMin, now, RecordAsNumber)
        {
          var currentTx := transactions[i];
          assert transactions[..i + 1][..i] == transactions[..i];
          if CheckIsInWindow(windowSizeMin, RecordAsNumber(currentTx), now) {
            txToLeave := txToLeave + [currentTx];
          }
          i := i + 1;
        }
        ghost var older := txToLeave;
        i := minLatestTxAmount;
        while i < |transactions|
          invariant minLatestTxAmount <= i <= |transactions|
          invariant txToLeave == older + transactions[minLatestTxAmount..i]
        {
          txToLeave := txToLeave + [transactions[i]];
          i := i + 1;
        }
        assert transactions[minLatestTxAmount..|transactions|] == transactions[minLatestTxAmount..];
        transactions := txToLeave;
      }
    }

    /** processNewTX: the decoded swap is appended as the newest entry, then the window is
        compacted; the new swap is always the last entry afterwards. */
    method ProcessNewTX(tx: RawLog, txTimestamp: real, now: real)
      modifies this`transactions
      ensures transactions ==
        Compact(old(transactions) + [ToSwap(StampedLog(tx, txTimestamp))], minLatestTxAmount, windowSizeMin, now, RecordAsNumber)
      ensures |transactions| > 0 && transactions[|transactions| - 1] == ToSwap(StampedLog(tx, txTimestamp))
    {
      var processedLogs := PreprocessLogs([StampedLog(tx, txTimestamp)]);
      transactions := transactions + [processedLogs[0]];
      MoveWindow(now);
      CompactKeepsNewest(old(transactions), processedLogs[0], minLatestTxAmount, windowSizeMin, now, RecordAsNumber);
    }
  }
}
