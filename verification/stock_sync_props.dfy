/**
 * Properties of the Stock_Universe sync: what is queried, how records are classified,
 * what the writes do to the table, and what a run leaves behind on success, on a
 * failed store call and on a second run over the same feed.
 */
module StockSyncProps {
  import opened Wrappers
  import opened Batching
  import opened StockUniverse
  import opened StockSync

  /** Some record of `feed` carries the symbol `x`. */
  predicate InFeed(feed: seq<SymbolRecord>, x: string)
  {
    exists k :: 0 <= k < |feed| && HasSymbol(feed[k]) && feed[k].symbol.value == x
  }

  /** `c` carries the symbol, description and currency of some symbol-bearing record of `feed`. */
  predicate FromFeed(c: Candidate, feed: seq<SymbolRecord>)
  {
    exists k :: 0 <= k < |feed| && HasSymbol(feed[k]) && c.ticker == feed[k].symbol.value
                && c.stockName == feed[k].description && c.currency == feed[k].currency
  }

  /** The columns every queued record carries: the exchange, is_active true, the run's updated_at. */
  predicate Stamped(c: Candidate, exchange: string, now: string)
  {
    c.exchange == exchange && c.isActive && c.updatedAt == now
  }

  /**
   * The ticker list holds exactly the symbols of the records that carry one:
   * a record without a symbol is never queried.
   */
  lemma {:induction false} TickersFacts(feed: seq<SymbolRecord>)
    ensures |Tickers(feed)| <= |feed|
    ensures forall x :: x in Tickers(feed) <==> InFeed(feed, x)
    decreases |feed|
  {
    if feed != [] {
      var init := feed[..|feed| - 1];
      TickersFacts(init);
      forall x ensures x in Tickers(feed) <==> InFeed(feed, x) {
        if InFeed(feed, x) {
          var k :| 0 <= k < |feed| && HasSymbol(feed[k]) && feed[k].symbol.value == x;
          if k < |feed| - 1 {
            assert init[k] == feed[k];
          }
        }
        if InFeed(init, x) {
          var k :| 0 <= k < |init| && HasSymbol(init[k]) && init[k].symbol.value == x;
          assert feed[k] == init[k];
        }
      }
    }
  }

  /**
   * Every queued update is a stored ticker whose row differs, without created_at;
   * every queued insert is an unknown ticker, with created_at stamped; both carry
   * the exchange, is_active and the run's timestamp, and come from a fetched record.
   * There are no more queued records than tickers.
   */
  lemma {:induction false} ClassifySound(feed: seq<SymbolRecord>, existing: Table, exchange: string, now: string)
    ensures var q := Classify(feed, existing, exchange, now);
            && (forall c | c in q.updates ::
                  && c.ticker in existing && Differs(existing[c.ticker], c) && c.createdAt.None?
                  && Stamped(c, exchange, now) && FromFeed(c, feed))
            && (forall c | c in q.inserts ::
                  && c.ticker !in existing && c.createdAt == Some(now)
                  && Stamped(c, exchange, now) && FromFeed(c, feed))
            && |q.updates| + |q.inserts| <= |Tickers(feed)|
    decreases |feed|
  {
    if feed != [] {
      var init := feed[..|feed| - 1];
      ClassifySound(init, existing, exchange, now);
      forall c | FromFeed(c, init) ensures FromFeed(c, feed) {
        var k :| 0 <= k < |init| && HasSymbol(init[k]) && c.ticker == init[k].symbol.value
                 && c.stockName == init[k].description && c.currency == init[k].currency;
        assert feed[k] == init[k];
      }
      var r := feed[|feed| - 1];
      if HasSymbol(r) {
        var c := CandidateOf(r, exchange, now);
        assert FromFeed(c, feed);
        assert FromFeed(c.(createdAt := Some(now)), feed);
      }
    }
  }

  /**
   * Every symbol-bearing record is queued: for update when its ticker is stored and
   * one compared column differs, for insert (with created_at) when it is not stored.
   */
  lemma {:induction false} ClassifyComplete(feed: seq<SymbolRecord>, existing: Table, exchange: string, now: string)
    ensures var q := Classify(feed, existing, exchange, now);
            forall k | 0 <= k < |feed| && HasSymbol(feed[k]) ::
              var c := CandidateOf(feed[k], exchange, now);
              && (c.ticker in existing && Differs(existing[c.ticker], c) ==> c in q.updates)
              && (c.ticker !in existing ==> c.(createdAt := Some(now)) in q.inserts)
    decreases |feed|
  {
    if feed != [] {
      var init := feed[..|feed| - 1];
      ClassifyComplete(init, existing, exchange, now);
      forall k | 0 <= k < |feed| - 1 ensures feed[k] == init[k] { }
    }
  }

  /**
   * The change test decides the update queue both ways, and storedness decides the
   * insert queue both ways: a record identical to its stored row is never written.
   */
  lemma ClassifyExact(feed: seq<SymbolRecord>, existing: Table, exchange: string, now: string)
    ensures var q := Classify(feed, existing, exchange, now);
            forall k | 0 <= k < |feed| && HasSymbol(feed[k]) ::
              var c := CandidateOf(feed[k], exchange, now);
              && (c in q.updates <==> c.ticker in existing && Differs(existing[c.ticker], c))
              && (c.(createdAt := Some(now)) in q.inserts <==> c.ticker !in existing)
  {
    ClassifySound(feed, existing, exchange, now);
    ClassifyComplete(feed, existing, exchange, now);
  }

  /** No ticker is queued both for update and for insert. */
  lemma QueuesDisjoint(feed: seq<SymbolRecord>, existing: Table, exchange: string, now: string)
    ensures var q := Classify(feed, existing, exchange, now);
            forall u, n | u in q.updates && n in q.inserts :: u.ticker != n.ticker
  {
    ClassifySound(feed, existing, exchange, now);
  }

  /** The candidates a call writes: none for a select. */
  function WrittenBy(op: Op): seq<Candidate>
  {
    if op.ReadBatch? then [] else op.rows
  }

  /** Selects never change the table. */
  lemma {:induction false} ReplayReads(t: Table, at: nat, faults: set<nat>, bs: seq<seq<string>>)
    ensures Replay(t, at, faults, ReadOps(bs)).rows == t
    decreases |bs|
  {
    if bs != [] {
      assert ReadOps(bs)[0] == ReadBatch(bs[0]);
      assert ReadOps(bs)[1..] == ReadOps(bs[1..]);
      ReplayReads(t, at + 1, faults, bs[1..]);
    }
  }

  /** When every upsert batch goes through, the table is the old one with all candidates written. */
  lemma {:induction false} ReplayUpserts(t: Table, at: nat, faults: set<nat>, bs: seq<seq<Candidate>>)
    ensures var r := Replay(t, at, faults, UpsertOps(bs));
            r.ok ==> r.rows == WriteAll(t, Flatten(bs))
    decreases |bs|
  {
    if bs != [] {
      assert UpsertOps(bs)[0] == UpsertBatch(bs[0]);
      assert UpsertOps(bs)[1..] == UpsertOps(bs[1..]);
      if at !in faults && Accepts(t, UpsertBatch(bs[0])) {
        ReplayUpserts(WriteAll(t, bs[0]), at + 1, faults, bs[1..]);
        WriteAllAppend(t, bs[0], Flatten(bs[1..]));
      }
    }
  }

  /**
   * When every insert batch goes through, the table is the old one with all candidates
   * written, and it has grown by one row per candidate.
   */
  lemma {:induction false} ReplayInserts(t: Table, at: nat, faults: set<nat>, bs: seq<seq<Candidate>>)
    ensures var r := Replay(t, at, faults, InsertOps(bs));
            r.ok ==> r.rows == WriteAll(t, Flatten(bs)) && |r.rows| == |t| + |Flatten(bs)|
    decreases |bs|
  {
    if bs != [] {
      assert InsertOps(bs)[0] == InsertBatch(bs[0]);
      assert InsertOps(bs)[1..] == InsertOps(bs[1..]);
      if at !in faults && Accepts(t, InsertBatch(bs[0])) {
        WriteAllGrows(t, bs[0]);
        ReplayInserts(WriteAll(t, bs[0]), at + 1, faults, bs[1..]);
        WriteAllAppend(t, bs[0], Flatten(bs[1..]));
      }
    }
  }

  /** No call deletes a row: every stored key is still there afterwards. */
  lemma {:induction false} ReplayKeepsKeys(t: Table, at: nat, faults: set<nat>, ops: seq<Op>)
    ensures t.Keys <= Replay(t, at, faults, ops).rows.Keys
    decreases |ops|
  {
    if ops != [] && at !in faults && Accepts(t, ops[0]) {
      if !ops[0].ReadBatch? {
        WriteAllKeys(t, ops[0].rows);
      }
      ReplayKeepsKeys(Apply(t, ops[0]), at + 1, faults, ops[1..]);
    }
  }

  /** A key no call writes keeps its row, or stays absent. */
  lemma {:induction false} ReplayFrame(t: Table, at: nat, faults: set<nat>, ops: seq<Op>, k: string)
    requires forall j, c | 0 <= j < |ops| && c in WrittenBy(ops[j]) :: c.ticker != k
    ensures Get(Replay(t, at, faults, ops).rows, k) == Get(t, k)
    decreases |ops|
  {
    if ops != [] && at !in faults && Accepts(t, ops[0]) {
      if !ops[0].ReadBatch? {
        WriteAllUntouched(t, ops[0].rows, k);
      }
      assert forall j | 0 <= j < |ops[1..]| :: ops[1..][j] == ops[j + 1];
      ReplayFrame(Apply(t, ops[0]), at + 1, faults, ops[1..], k);
    }
  }

  /**
   * When a call fails, every call before it went through and its effect stays
   * (nothing is rolled back), and the failed call is the last one issued.
   */
  lemma {:induction false} ReplayFailedPrefix(t: Table, at: nat, faults: set<nat>, ops: seq<Op>)
    ensures var r := Replay(t, at, faults, ops);
            !r.ok ==> var pre := Replay(t, at, faults, ops[..r.calls - 1]);
                      && pre.ok && pre.rows == r.rows
                      && (at + r.calls - 1 in faults || !Accepts(pre.rows, ops[r.calls - 1]))
    decreases |ops|
  {
    if ops != [] && at !in faults && Accepts(t, ops[0]) {
      var r1 := Replay(Apply(t, ops[0]), at + 1, faults, ops[1..]);
      ReplayFailedPrefix(Apply(t, ops[0]), at + 1, faults, ops[1..]);
      if !r1.ok {
        var pre := ops[..r1.calls];
        assert pre[0] == ops[0] && pre[1..] == ops[1..][..r1.calls - 1];
        assert ops[r1.calls] == ops[1..][r1.calls - 1];
      }
    }
  }

  /**
   * The selects: ceil(N / 100) of them for N tickers, each naming between 1 and 100
   * tickers, together naming the ticker list in order and without overlap.
   */
  lemma ReadPlan(feed: seq<SymbolRecord>)
    ensures var ts := Tickers(feed);
            var bs := Batches(ts);
            var ops := ReadOps(bs);
            && |ops| == CeilDiv(|ts|, BatchSize)
            && (forall j | 0 <= j < |ops| :: ops[j] == ReadBatch(bs[j]) && 0 < |bs[j]| <= BatchSize)
            && Flatten(bs) == ts
  {
    BatchesPartition(Tickers(feed));
  }

  /**
   * The writes: all update batches, then all insert batches, ceil(x / 100) of each,
   * each batch between 1 and 100 records, each queue written in its own order.
   */
  lemma WritePlan(q: Queues)
    ensures var bu, bi := Batches(q.updates), Batches(q.inserts);
            var ops := WriteOps(q);
            && |ops| == CeilDiv(|q.updates|, BatchSize) + CeilDiv(|q.inserts|, BatchSize)
            && (forall j | 0 <= j < |bu| :: ops[j] == UpsertBatch(bu[j]) && 0 < |bu[j]| <= BatchSize)
            && (forall j | 0 <= j < |bi| :: ops[|bu| + j] == InsertBatch(bi[j]) && 0 < |bi[j]| <= BatchSize)
            && Flatten(bu) == q.updates && Flatten(bi) == q.inserts
  {
    BatchesPartition(q.updates);
    BatchesPartition(q.inserts);
  }

  /** Every record the writes of `q` carry is one of its queued records. */
  lemma WriteOpsQueued(q: Queues)
    ensures var w := WriteOps(q);
            forall k, c | 0 <= k < |w| && c in WrittenBy(w[k]) :: c in q.updates || c in q.inserts
  {
    var bu, bi := Batches(q.updates), Batches(q.inserts);
    BatchesPartition(q.updates);
    BatchesPartition(q.inserts);
    var w := WriteOps(q);
    assert w == UpsertOps(bu) + InsertOps(bi);
    forall k, c | 0 <= k < |w| && c in WrittenBy(w[k]) ensures c in q.updates || c in q.inserts {
      if k < |bu| {
        assert w[k] == UpsertBatch(bu[k]);
        InFlatten(bu, k, c);
      } else {
        assert w[k] == InsertOps(bi)[k - |bu|] == InsertBatch(bi[k - |bu|]);
        InFlatten(bi, k - |bu|, c);
      }
    }
  }

  /** Every record a run writes is one of its queued records. */
  lemma PlanWritesQueued(feed: seq<SymbolRecord>, rows: Table, exchange: string, now: string)
    ensures var q := Classify(feed, rows, exchange, now);
            var p := Plan(feed, rows, exchange, now);
            forall j, c | 0 <= j < |p| && c in WrittenBy(p[j]) :: c in q.updates || c in q.inserts
  {
    var q := Classify(feed, rows, exchange, now);
    var p := Plan(feed, rows, exchange, now);
    var readOps := ReadOps(Batches(Tickers(feed)));
    var w := WriteOps(q);
    assert p == readOps + w;
    WriteOpsQueued(q);
    forall j, c | 0 <= j < |p| && c in WrittenBy(p[j]) ensures c in q.updates || c in q.inserts {
      if j >= |readOps| {
        assert p[j] == w[j - |readOps|];
      }
    }
  }

  /**
   * A run never deletes a row, and a ticker absent from the fetched feed keeps its
   * stored row whatever happens; only tickers of the feed are ever written.
   */
  lemma SyncNoDeletion(t: Table, at: nat, faults: set<nat>, exchange: Option<string>,
                       fetched: FetchResult, now: string)
    ensures var s := SyncSpec(t, at, faults, exchange, fetched, now);
            && t.Keys <= s.rows.Keys
            && forall k | !(fetched.Fetched? && k in Tickers(fetched.records)) :: Get(s.rows, k) == Get(t, k)
  {
    if exchange.Some? && fetched.Fetched? && fetched.records != [] {
      var feed := fetched.records;
      var q := Classify(feed, t, exchange.value, now);
      var p := Plan(feed, t, exchange.value, now);
      ReplayKeepsKeys(t, at, faults, p);
      PlanWritesQueued(feed, t, exchange.value, now);
      ClassifySound(feed, t, exchange.value, now);
      TickersFacts(feed);
      forall k | k !in Tickers(feed) ensures Get(Replay(t, at, faults, p).rows, k) == Get(t, k) {
        forall j, c | 0 <= j < |p| && c in WrittenBy(p[j]) ensures c.ticker != k {
          assert InFeed(feed, c.ticker);
        }
        ReplayFrame(t, at, faults, p, k);
      }
    }
  }

  /** Calls that write only active records never deactivate a row, whichever of them fail. */
  lemma {:induction false} ReplayKeepsActive(t: Table, at: nat, faults: set<nat>, ops: seq<Op>, k: string)
    requires forall j, c | 0 <= j < |ops| && c in WrittenBy(ops[j]) :: c.isActive
    requires k in t && t[k].isActive
    ensures var r := Replay(t, at, faults, ops);
            k in r.rows && r.rows[k].isActive
    decreases |ops|
  {
    if ops != [] && at !in faults && Accepts(t, ops[0]) {
      if !ops[0].ReadBatch? {
        var cs := ops[0].rows;
        forall i | 0 <= i < |cs| ensures cs[i].isActive {
          assert cs[i] in WrittenBy(ops[0]);
        }
        WriteAllKeepsActive(t, cs, k);
      }
      assert forall j | 0 <= j < |ops[1..]| :: ops[1..][j] == ops[j + 1];
      ReplayKeepsActive(Apply(t, ops[0]), at + 1, faults, ops[1..], k);
    }
  }

  /**
   * A run never deactivates a row: every row that was active before is still stored
   * and still active afterwards, whether the run completed or failed part-way.
   */
  lemma SyncNeverDeactivates(t: Table, at: nat, faults: set<nat>, exchange: Option<string>,
                             fetched: FetchResult, now: string, k: string)
    requires k in t && t[k].isActive
    ensures var s := SyncSpec(t, at, faults, exchange, fetched, now);
            k in s.rows && s.rows[k].isActive
  {
    if exchange.Some? && fetched.Fetched? && fetched.records != [] {
      var feed := fetched.records;
      var q := Classify(feed, t, exchange.value, now);
      var p := Plan(feed, t, exchange.value, now);
      PlanWritesQueued(feed, t, exchange.value, now);
      ClassifySound(feed, t, exchange.value, now);
      assert forall j, c | 0 <= j < |p| && c in WrittenBy(p[j]) :: c.isActive;
      ReplayKeepsActive(t, at, faults, p, k);
    }
  }

  /**
   * A run that ends in a store error has issued at least one call; the calls before
   * the last went through and their writes stay, the last one failed, and nothing
   * after it was issued.
   */
  lemma SyncStoreFailure(t: Table, at: nat, faults: set<nat>, exchange: Option<string>,
                         fetched: FetchResult, now: string)
    ensures var s := SyncSpec(t, at, faults, exchange, fetched, now);
            s.outcome == Failed(StoreError) ==>
              && 0 < |s.calls|
              && var last := |s.calls| - 1;
                 var pre := Replay(t, at, faults, s.calls[..last]);
                 && pre.ok && pre.rows == s.rows
                 && (at + last in faults || !Accepts(pre.rows, s.calls[last]))
  {
    if exchange.Some? && fetched.Fetched? && fetched.records != [] {
      var s := SyncSpec(t, at, faults, exchange, fetched, now);
      var p := Plan(fetched.records, t, exchange.value, now);
      var r := Replay(t, at, faults, p);
      assert s.calls == p[..r.calls] && s.rows == r.rows && (s.outcome == Failed(StoreError) <==> !r.ok);
      ReplayFailedPrefix(t, at, faults, p);
      if !r.ok {
        var last := r.calls - 1;
        assert s.calls[..last] == p[..last] && s.calls[last] == p[last] && |s.calls| == r.calls;
      }
    }
  }

  /** Runs that stop before the first select make no call and leave the table as it was. */
  lemma SyncEarlyExit(t: Table, at: nat, faults: set<nat>, exchange: Option<string>,
                      fetched: FetchResult, now: string)
    requires exchange.None? || fetched.FetchFailed? || fetched.records == []
    ensures var s := SyncSpec(t, at, faults, exchange, fetched, now);
            s.rows == t && s.calls == [] && s.outcome.Failed? && s.outcome.reason != StoreError
  {
  }

  /** A run after a non-empty fetch is the read phase, then, if every read went through, the write phase. */
  lemma SyncFeedPhases(t: Table, at: nat, faults: set<nat>, feed: seq<SymbolRecord>, exchange: string, now: string)
    ensures var q := Classify(feed, t, exchange, now);
            var readOps, writeOps := ReadOps(Batches(Tickers(feed))), WriteOps(q);
            var rA := Replay(t, at, faults, readOps);
            var rW := Replay(rA.rows, at + |readOps|, faults, writeOps);
            var s := SyncFeed(t, at, faults, feed, exchange, now);
            && s.rows == (if rA.ok then rW.rows else rA.rows)
            && s.calls == (if rA.ok then readOps + writeOps[..rW.calls] else readOps[..rA.calls])
            && s.outcome == (if rA.ok && rW.ok then Completed(|q.updates|, |q.inserts|) else Failed(StoreError))
  {
    var q := Classify(feed, t, exchange, now);
    var readOps, writeOps := ReadOps(Batches(Tickers(feed))), WriteOps(q);
    var rA := Replay(t, at, faults, readOps);
    assert Plan(feed, t, exchange, now) == readOps + writeOps;
    ReplayPhases(t, at, faults, readOps, writeOps);
  }

  /** Issuing `a + b` in terms of the two phases: the calls issued and the table left. */
  lemma ReplayPhases(t: Table, at: nat, faults: set<nat>, a: seq<Op>, b: seq<Op>)
    ensures var rA := Replay(t, at, faults, a);
            var rB := Replay(rA.rows, at + |a|, faults, b);
            var r := Replay(t, at, faults, a + b);
            && r.rows == (if rA.ok then rB.rows else rA.rows)
            && (a + b)[..r.calls] == (if rA.ok then a + b[..rB.calls] else a[..rA.calls])
            && r.ok == (rA.ok && rB.ok)
  {
    var rA := Replay(t, at, faults, a);
    var rB := Replay(rA.rows, at + |a|, faults, b);
    ReplayAppend(t, at, faults, a, b);
    if rA.ok {
      assert (a + b)[..|a| + rB.calls] == a + b[..rB.calls];
    } else {
      assert (a + b)[..rA.calls] == a[..rA.calls];
    }
  }

  /**
   * When the whole write phase goes through and every update names a stored ticker,
   * the table holds every update and every insert and has grown by the inserts.
   */
  lemma WritePhaseOk(t: Table, at: nat, faults: set<nat>, q: Queues)
    requires forall c | c in q.updates :: c.ticker in t
    ensures var r := Replay(t, at, faults, WriteOps(q));
            r.ok ==> r.rows == WriteAll(WriteAll(t, q.updates), q.inserts) && |r.rows| == |t| + |q.inserts|
  {
    var upsOps, insOps := UpsertOps(Batches(q.updates)), InsertOps(Batches(q.inserts));
    var r := Replay(t, at, faults, WriteOps(q));
    var rB := Replay(t, at, faults, upsOps);
    assert WriteOps(q) == upsOps + insOps;
    ReplayAppend(t, at, faults, upsOps, insOps);
    if rB.ok {
      var u := WriteAll(t, q.updates);
      assert rB.rows == u by {
        BatchesPartition(q.updates);
        ReplayUpserts(t, at, faults, Batches(q.updates));
      }
      assert |u| == |t| by {
        WriteAllKeys(t, q.updates);
        assert u.Keys == t.Keys;
      }
      var rC := Replay(u, at + |upsOps|, faults, insOps);
      assert r.rows == rC.rows && r.ok == rC.ok;
      var bi := Batches(q.inserts);
      assert Flatten(bi) == q.inserts by {
        BatchesPartition(q.inserts);
      }
      ReplayInserts(u, at + |upsOps|, faults, bi);
      if rC.ok {
        assert rC.rows == WriteAll(u, Flatten(bi)) && |rC.rows| == |u| + |Flatten(bi)|;
      }
    }
  }

  /** When every call of the plan goes through, the table holds every update and every insert. */
  lemma PlanOk(t: Table, at: nat, faults: set<nat>, feed: seq<SymbolRecord>, exchange: string, now: string)
    ensures var q := Classify(feed, t, exchange, now);
            var r := Replay(t, at, faults, Plan(feed, t, exchange, now));
            r.ok ==> r.rows == WriteAll(WriteAll(t, q.updates), q.inserts) && |r.rows| == |t| + |q.inserts|
  {
    var q := Classify(feed, t, exchange, now);
    var readOps, writeOps := ReadOps(Batches(Tickers(feed))), WriteOps(q);
    var rA := Replay(t, at, faults, readOps);
    ReplayAppend(t, at, faults, readOps, writeOps);
    if rA.ok {
      assert rA.rows == t by {
        ReplayReads(t, at, faults, Batches(Tickers(feed)));
      }
      assert forall c | c in q.updates :: c.ticker in t by {
        ClassifySound(feed, t, exchange, now);
      }
      WritePhaseOk(t, at + |readOps|, faults, q);
    }
  }

  /** `SyncSuccess` for the part of a run after a non-empty fetch. */
  lemma SyncFeedSuccess(t: Table, at: nat, faults: set<nat>, feed: seq<SymbolRecord>, exchange: string, now: string)
    ensures var s := SyncFeed(t, at, faults, feed, exchange, now);
            var q := Classify(feed, t, exchange, now);
            s.outcome.Completed? ==>
              && s.outcome == Completed(|q.updates|, |q.inserts|)
              && s.calls == Plan(feed, t, exchange, now)
              && s.rows == WriteAll(WriteAll(t, q.updates), q.inserts)
              && |s.rows| == |t| + |q.inserts|
  {
    var plan := Plan(feed, t, exchange, now);
    PlanOk(t, at, faults, feed, exchange, now);
    assert plan[..|plan|] == plan;
  }

  /**
   * A completed run issued the whole plan: every update written, then every insert,
   * and the table grew by exactly the number of inserts.
   */
  lemma SyncSuccess(t: Table, at: nat, faults: set<nat>, exchange: Option<string>,
                    fetched: FetchResult, now: string)
    ensures var s := SyncSpec(t, at, faults, exchange, fetched, now);
            s.outcome.Completed? ==>
              && exchange.Some? && fetched.Fetched? && fetched.records != []
              && var q := Classify(fetched.records, t, exchange.value, now);
                 && s.outcome == Completed(|q.updates|, |q.inserts|)
                 && s.calls == Plan(fetched.records, t, exchange.value, now)
                 && s.rows == WriteAll(WriteAll(t, q.updates), q.inserts)
                 && |s.rows| == |t| + |q.inserts|
  {
    if exchange.Some? && fetched.Fetched? && fetched.records != [] {
      SyncFeedSuccess(t, at, faults, fetched.records, exchange.value, now);
    }
  }

  /** Records of the feed that share a symbol agree on its description and currency. */
  predicate ConsistentFeed(feed: seq<SymbolRecord>)
  {
    forall i, j | 0 <= i < |feed| && 0 <= j < |feed| && HasSymbol(feed[i]) && HasSymbol(feed[j])
                  && feed[i].symbol == feed[j].symbol ::
      feed[i].description == feed[j].description && feed[i].currency == feed[j].currency
  }

  /** In a consistent feed, every queued record for a ticker agrees with each record carrying it. */
  lemma QueuedAgree(feed: seq<SymbolRecord>, t: Table, exchange: string, now: string, k: nat)
    requires ConsistentFeed(feed) && k < |feed| && HasSymbol(feed[k])
    ensures var q := Classify(feed, t, exchange, now);
            var c := CandidateOf(feed[k], exchange, now);
            forall d | (d in q.updates || d in q.inserts) && d.ticker == c.ticker :: SameFields(d, c)
  {
    ClassifySound(feed, t, exchange, now);
  }

  /**
   * After a completed run of a consistent feed, every record's ticker is stored and its
   * row matches the record on every compared column.
   */
  lemma WrittenRowMatches(feed: seq<SymbolRecord>, t: Table, exchange: string, now: string, k: nat)
    requires ConsistentFeed(feed) && k < |feed| && HasSymbol(feed[k])
    ensures var q := Classify(feed, t, exchange, now);
            var r := WriteAll(WriteAll(t, q.updates), q.inserts);
            var c := CandidateOf(feed[k], exchange, now);
            c.ticker in r && !Differs(r[c.ticker], c)
  {
    var q := Classify(feed, t, exchange, now);
    var u := WriteAll(t, q.updates);
    var c := CandidateOf(feed[k], exchange, now);
    var x := c.ticker;
    ClassifySound(feed, t, exchange, now);
    ClassifyComplete(feed, t, exchange, now);
    QueuedAgree(feed, t, exchange, now, k);
    if x !in t {
      var i :| 0 <= i < |q.inserts| && q.inserts[i] == c.(createdAt := Some(now));
      WriteAllAgrees(u, q.inserts, c);
    } else {
      forall i | 0 <= i < |q.inserts| ensures q.inserts[i].ticker != x { }
      if Differs(t[x], c) {
        var i :| 0 <= i < |q.updates| && q.updates[i] == c;
        WriteAllAgrees(t, q.updates, c);
      } else {
        forall i | 0 <= i < |q.updates| ensures q.updates[i].ticker != x { }
        WriteAllUntouched(t, q.updates, x);
      }
      WriteAllUntouched(u, q.inserts, x);
    }
  }

  /** When every record is stored and matches its row, classification queues nothing. */
  lemma {:induction false} ClassifyNothing(feed: seq<SymbolRecord>, t: Table, exchange: string, now: string)
    requires forall k | 0 <= k < |feed| && HasSymbol(feed[k]) ::
               var c := CandidateOf(feed[k], exchange, now); c.ticker in t && !Differs(t[c.ticker], c)
    ensures Classify(feed, t, exchange, now) == Queues([], [])
    decreases |feed|
  {
    if feed != [] {
      var init := feed[..|feed| - 1];
      forall k | 0 <= k < |init| ensures init[k] == feed[k] { }
      ClassifyNothing(init, t, exchange, now);
    }
  }

  /**
   * Rerunning after a completed run of a consistent feed queues nothing: the second
   * run only selects, leaves the table as it is, and reports no update and no insert
   * when it completes. updated_at is not compared, so the later timestamp changes nothing.
   */
  lemma SyncIdempotent(t: Table, at: nat, faults: set<nat>, feed: seq<SymbolRecord>, exchange: string,
                       now: string, at2: nat, faults2: set<nat>, later: string)
    requires ConsistentFeed(feed)
    ensures var s := SyncFeed(t, at, faults, feed, exchange, now);
            var s2 := SyncFeed(s.rows, at2, faults2, feed, exchange, later);
            s.outcome.Completed? ==>
              && Classify(feed, s.rows, exchange, later) == Queues([], [])
              && s2.rows == s.rows
              && (s2.outcome.Completed? ==> s2.outcome == Completed(0, 0))
  {
    var s := SyncFeed(t, at, faults, feed, exchange, now);
    if s.outcome.Completed? {
      SyncFeedSuccess(t, at, faults, feed, exchange, now);
      forall k | 0 <= k < |feed| && HasSymbol(feed[k])
        ensures var c := CandidateOf(feed[k], exchange, later); c.ticker in s.rows && !Differs(s.rows[c.ticker], c)
      {
        WrittenRowMatches(feed, t, exchange, now, k);
      }
      ClassifyNothing(feed, s.rows, exchange, later);
      ReplayReads(s.rows, at2, faults2, Batches(Tickers(feed)));
      SyncFeedPhases(s.rows, at2, faults2, feed, exchange, later);
      assert WriteOps(Queues([], [])) == [];
    }
  }
}
