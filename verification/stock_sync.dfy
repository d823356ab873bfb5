/**
 * The Stock_Universe reconciliation job: fetch a symbol snapshot, read the stored
 * rows for its tickers in batches of 100, classify every fetched symbol as insert,
 * update or skip, then upsert the updates and insert the new rows in batches of 100.
 * Every failure is caught and logged; nothing propagates to the scheduler.
 */
module StockSync {
  import opened Wrappers
  import opened Batching
  import opened StockUniverse

  /** What the market-data fetch produced: an error, or the decoded list of symbols. */
  datatype FetchResult = FetchFailed | Fetched(records: seq<SymbolRecord>)

  /** Why a run ended early; each is caught by the job's catch-all and only logged. */
  datatype Failure =
    | ExchangeNotConfigured  // config["EXCHANGE"] raises KeyError
    | FetchError             // the market-data client raised
    | NoData                 // the fetched list is empty
    | StoreError             // a select, upsert or insert raised

  datatype RunOutcome = Completed(updated: nat, inserted: nat) | Failed(reason: Failure)

  /** The write queues of a run: `updated_records` and `new_records`. */
  datatype Queues = Queues(updates: seq<Candidate>, inserts: seq<Candidate>)

  /** The job's `if stock.get("symbol")`: the key is present and the value is not empty. */
  predicate HasSymbol(r: SymbolRecord)
  {
    r.symbol.Some? && r.symbol.value != ""
  }

  /** `stock_ticker_list`: the symbols of the records that carry one, in feed order. */
  function Tickers(feed: seq<SymbolRecord>): seq<string>
    decreases |feed|
  {
    if feed == [] then []
    else
      var last := feed[|feed| - 1];
      Tickers(feed[..|feed| - 1]) + if HasSymbol(last) then [last.symbol.value] else []
  }

  /** The `api_data` the job builds for a record that carries a symbol. */
  function CandidateOf(r: SymbolRecord, exchange: string, now: string): Candidate
    requires HasSymbol(r)
  {
    Candidate(r.symbol.value, r.description, r.currency, exchange, true, now, None)
  }

  /**
   * The queues after the job's comparison loop has visited `feed`, against the rows
   * `existing` it read: an unknown ticker is queued for insert with created_at stamped,
   * a known one for update when one of the four compared fields differs, else skipped.
   */
  function Classify(feed: seq<SymbolRecord>, existing: Table, exchange: string, now: string): Queues
    decreases |feed|
  {
    if feed == [] then Queues([], [])
    else
      var q := Classify(feed[..|feed| - 1], existing, exchange, now);
      var r := feed[|feed| - 1];
      if !HasSymbol(r) then q
      else
        var c := CandidateOf(r, exchange, now);
        if c.ticker in existing then
          if Differs(existing[c.ticker], c) then q.(updates := q.updates + [c]) else q
        else q.(inserts := q.inserts + [c.(createdAt := Some(now))])
  }

  function ReadOps(bs: seq<seq<string>>): seq<Op>
  {
    seq(|bs|, j requires 0 <= j < |bs| => ReadBatch(bs[j]))
  }

  function UpsertOps(bs: seq<seq<Candidate>>): seq<Op>
  {
    seq(|bs|, j requires 0 <= j < |bs| => UpsertBatch(bs[j]))
  }

  function InsertOps(bs: seq<seq<Candidate>>): seq<Op>
  {
    seq(|bs|, j requires 0 <= j < |bs| => InsertBatch(bs[j]))
  }

  /** The writes of a run: all update batches, then all insert batches. */
  function WriteOps(q: Queues): seq<Op>
  {
    UpsertOps(Batches(q.updates)) + InsertOps(Batches(q.inserts))
  }

  /** Every store call a run on `rows` makes when no call fails. */
  function Plan(feed: seq<SymbolRecord>, rows: Table, exchange: string, now: string): seq<Op>
  {
    ReadOps(Batches(Tickers(feed))) + WriteOps(Classify(feed, rows, exchange, now))
  }

  /** The table after a sequence of calls, how many calls were issued, and whether all were accepted. */
  datatype Replayed<R> = Replayed(rows: R, calls: nat, ok: bool)

  function Shift(m: nat, r: Replayed<Table>): Replayed<Table>
  {
    r.(calls := r.calls + m)
  }

  /**
   * Issues `ops` one after the other on table `t`, the first one at log position `at`,
   * and stops at the first call the store fails (a fault or a rejected batch).
   */
  function Replay(t: Table, at: nat, faults: set<nat>, ops: seq<Op>): (r: Replayed<Table>)
    ensures r.calls <= |ops|
    ensures r.ok ==> r.calls == |ops|
    ensures !r.ok ==> r.calls >= 1
    decreases |ops|
  {
    if ops == [] then Replayed(t, 0, true)
    else if at in faults || !Accepts(t, ops[0]) then Replayed(t, 1, false)
    else Shift(1, Replay(Apply(t, ops[0]), at + 1, faults, ops[1..]))
  }

  /** Issuing `a + b` is issuing `a`, then, if every call of `a` went through, issuing `b`. */
  lemma {:induction false} ReplayAppend(t: Table, at: nat, faults: set<nat>, a: seq<Op>, b: seq<Op>)
    ensures var ra, r := Replay(t, at, faults, a), Replay(t, at, faults, a + b);
            var rb := Replay(ra.rows, at + |a|, faults, b);
            if ra.ok then r.rows == rb.rows && r.calls == |a| + rb.calls && r.ok == rb.ok
            else r.rows == ra.rows && r.calls == ra.calls && !r.ok
    decreases |a|
  {
    if a == [] {
      assert a + b == b;
    } else {
      assert (a + b)[0] == a[0] && (a + b)[1..] == a[1..] + b;
      if at !in faults && Accepts(t, a[0]) {
        ReplayAppend(Apply(t, a[0]), at + 1, faults, a[1..], b);
      }
    }
  }

  /** Table, calls made and outcome of one run. */
  datatype RunResult = RunResult(rows: Table, calls: seq<Op>, outcome: RunOutcome)

  /**
   * One run of the job on table `t` whose next call lands at log position `at`.
   * `exchange` is the value of the `config["EXCHANGE"]` lookup and `now` the run timestamp.
   */
  function SyncSpec(t: Table, at: nat, faults: set<nat>, exchange: Option<string>,
                    fetched: FetchResult, now: string): RunResult
  {
    if exchange.None? then RunResult(t, [], Failed(ExchangeNotConfigured))
    else if fetched.FetchFailed? then RunResult(t, [], Failed(FetchError))
    else if fetched.records == [] then RunResult(t, [], Failed(NoData))
    else SyncFeed(t, at, faults, fetched.records, exchange.value, now)
  }

  /**
   * The part of a run after a non-empty fetch: every call of the plan is issued until
   * one fails; the counts are reported only when all of them went through.
   */
  function SyncFeed(t: Table, at: nat, faults: set<nat>, feed: seq<SymbolRecord>,
                    exchange: string, now: string): RunResult
  {
    var p := Plan(feed, t, exchange, now);
    var r := Replay(t, at, faults, p);
    var q := Classify(feed, t, exchange, now);
    RunResult(r.rows, p[..r.calls],
              if r.ok then Completed(|q.updates|, |q.inserts|) else Failed(StoreError))
  }

  /** Classification only looks at the rows of the tickers the feed carries. */
  lemma {:induction false} ClassifyLocal(feed: seq<SymbolRecord>, a: Table, b: Table, exchange: string, now: string)
    requires forall t :: t in Tickers(feed) ==> (t in a <==> t in b) && (t in a ==> a[t] == b[t])
    ensures Classify(feed, a, exchange, now) == Classify(feed, b, exchange, now)
    decreases |feed|
  {
    if feed != [] {
      ClassifyLocal(feed[..|feed| - 1], a, b, exchange, now);
    }
  }

  /**
   * Issuing one more call after `done` went through: the call fails (a fault or a
   * rejected batch) and leaves the table alone, or it is applied.
   */
  lemma ReplayExtend(t: Table, at: nat, faults: set<nat>, done: seq<Op>, op: Op)
    requires Replay(t, at, faults, done).ok
    ensures var r, r' := Replay(t, at, faults, done), Replay(t, at, faults, done + [op]);
            && r'.calls == |done| + 1
            && r'.ok == (at + |done| !in faults && Accepts(r.rows, op))
            && r'.rows == if r'.ok then Apply(r.rows, op) else r.rows
  {
    ReplayAppend(t, at, faults, done, [op]);
  }

  /** A call that failed ends the replay: whatever was to follow is never issued. */
  lemma ReplayStopped(t: Table, at: nat, faults: set<nat>, done: seq<Op>, rest: seq<Op>)
    requires !Replay(t, at, faults, done).ok
    ensures var r, r' := Replay(t, at, faults, done), Replay(t, at, faults, done + rest);
            r'.rows == r.rows && r'.calls == r.calls && !r'.ok
  {
    ReplayAppend(t, at, faults, done, rest);
  }

  /**
   * Reads never change the table and the store never rejects them: issuing the first
   * `j` reads goes through when none of their log positions is a fault.
   */
  lemma {:induction false} ReadsReplay(t: Table, at: nat, faults: set<nat>, ops: seq<Op>, j: nat)
    requires j <= |ops| && forall k | 0 <= k < |ops| :: ops[k].ReadBatch?
    requires forall p | at <= p < at + j :: p !in faults
    ensures var r := Replay(t, at, faults, ops[..j]); r.ok && r.rows == t
    ensures j < |ops| && at + j in faults ==>
              var r := Replay(t, at, faults, ops); r.rows == t && r.calls == j + 1 && !r.ok
    decreases j
  {
    if j > 0 {
      ReadsReplay(t, at + 1, faults, ops[1..], j - 1);
      assert ops[..j][1..] == ops[1..][..j - 1];
    }
  }

  /**
   * Issuing the call at index `j` of `ops` after the first `j` went through; when it
   * fails, the replay of the whole of `ops` ends with it.
   */
  lemma ReplayStep(t: Table, at: nat, faults: set<nat>, ops: seq<Op>, j: nat)
    requires j < |ops| && Replay(t, at, faults, ops[..j]).ok
    ensures var r, r' := Replay(t, at, faults, ops[..j]), Replay(t, at, faults, ops[..j + 1]);
            && r'.ok == (at + j !in faults && Accepts(r.rows, ops[j]))
            && r'.rows == (if r'.ok then Apply(r.rows, ops[j]) else r.rows)
    ensures var r' := Replay(t, at, faults, ops[..j + 1]);
            !r'.ok ==> var all := Replay(t, at, faults, ops);
                       all.rows == r'.rows && all.calls == j + 1 && !all.ok
  {
    assert ops[..j + 1] == ops[..j] + [ops[j]];
    ReplayExtend(t, at, faults, ops[..j], ops[j]);
    if !Replay(t, at, faults, ops[..j + 1]).ok {
      ReplayStopped(t, at, faults, ops[..j + 1], ops[j + 1..]);
      assert ops == ops[..j + 1] + ops[j + 1..];
    }
  }

  /**
   * `rows`, `log` and `ok` are what issuing `ops` leaves behind, starting on table `t`
   * with log `log0`: the replayed table, the calls issued appended to the log, and
   * whether every call went through.
   */
  predicate Issued(t: Table, log0: seq<Op>, faults: set<nat>, ops: seq<Op>, rows: Table, log: seq<Op>, ok: bool)
  {
    var r := Replay(t, |log0|, faults, ops);
    rows == r.rows && log == log0 + ops[..r.calls] && ok == r.ok
  }

  /** Issuing `a`, then `b` if every call of `a` went through, is issuing `a + b`. */
  lemma IssuedAppend(t: Table, log0: seq<Op>, faults: set<nat>, a: seq<Op>, b: seq<Op>,
                     rows1: Table, log1: seq<Op>, ok1: bool, rows2: Table, log2: seq<Op>, ok2: bool)
    requires Issued(t, log0, faults, a, rows1, log1, ok1)
    requires ok1 ==> Issued(rows1, log1, faults, b, rows2, log2, ok2)
    ensures ok1 ==> Issued(t, log0, faults, a + b, rows2, log2, ok2)
    ensures !ok1 ==> Issued(t, log0, faults, a + b, rows1, log1, false)
  {
    var ra := Replay(t, |log0|, faults, a);
    var r := Replay(t, |log0|, faults, a + b);
    ReplayAppend(t, |log0|, faults, a, b);
    if ok1 {
      var rb := Replay(rows1, |log1|, faults, b);
      assert a[..ra.calls] == a;
      assert (a + b)[..r.calls] == a + b[..rb.calls];
      assert log0 + a + b[..rb.calls] == log0 + (a + b[..rb.calls]);
    } else {
      assert (a + b)[..r.calls] == a[..ra.calls];
    }
  }

  /**
   * One more call after the first `j` calls of `ops` went through: `rows'`, `log'` and
   * `ok` are the store's answer to call `ops[j]`. If it goes through, the first `j + 1`
   * calls are issued; if it fails, the whole of `ops` is issued as far as it goes.
   */
  lemma IssuedNext(t: Table, log0: seq<Op>, faults: set<nat>, ops: seq<Op>, j: nat,
                   rows: Table, log: seq<Op>, rows': Table, log': seq<Op>, ok: bool)
    requires j < |ops| && Issued(t, log0, faults, ops[..j], rows, log, true)
    requires log' == log + [ops[j]] && ok == (|log| !in faults && Accepts(rows, ops[j]))
    requires rows' == if ok then Apply(rows, ops[j]) else rows
    ensures ok ==> Issued(t, log0, faults, ops[..j + 1], rows', log', true)
    ensures !ok ==> Issued(t, log0, faults, ops, rows', log', false)
  {
    ReplayStep(t, |log0|, faults, ops, j);
    assert ops[..j][..j] == ops[..j] && ops[..j + 1] == ops[..j] + [ops[j]];
    assert ops[..j + 1][..j + 1] == ops[..j + 1] && ops[..j + 1] == ops[..j] + [ops[j]];
  }

  /**
   * A run after a non-empty fetch leaves the store as issuing its plan does, and
   * reports the queue sizes exactly when every call of the plan went through.
   */
  lemma SyncFeedIssued(t: Table, log0: seq<Op>, faults: set<nat>, feed: seq<SymbolRecord>, exchange: string,
                       now: string, rows: Table, log: seq<Op>, ok: bool)
    requires Issued(t, log0, faults, Plan(feed, t, exchange, now), rows, log, ok)
    ensures var s, q := SyncFeed(t, |log0|, faults, feed, exchange, now), Classify(feed, t, exchange, now);
            && s.rows == rows && log == log0 + s.calls
            && s.outcome == if ok then Completed(|q.updates|, |q.inserts|) else Failed(StoreError)
  {
  }

  /**
   * The job's first loop: reads the stored rows of `tickers` batch by batch and
   * merges them into `existing`; stops at the first select that raises.
   */
  method ReadExisting(store: Store, tickers: seq<string>) returns (existing: Option<Table>)
    modifies store
    ensures Issued(old(store.rows), old(store.log), store.faults, ReadOps(Batches(tickers)),
                   store.rows, store.log, existing.Some?)
    ensures store.rows == old(store.rows)
    ensures existing.Some? ==> existing.value == Restrict(old(store.rows), tickers)
  {
    ghost var rows0, log0 := store.rows, store.log;
    var bs := Batches(tickers);
    ghost var ops := ReadOps(bs);
    var acc: Table := map[];
    var j := 0;
    while j < |bs|
      invariant j <= |bs|
      invariant store.rows == rows0 && store.log == log0 + ops[..j]
      invariant forall p | |log0| <= p < |log0| + j :: p !in store.faults
      invariant acc == Restrict(rows0, Flatten(bs[..j]))
    {
      assert ops[..j + 1] == ops[..j] + [ReadBatch(bs[j])];
      var found := store.Select(bs[j]);
      if found.None? {
        ReadsReplay(rows0, |log0|, store.faults, ops, j);
        return None;
      }
      FlattenSnoc(bs, j);
      RestrictAppend(rows0, Flatten(bs[..j]), bs[j]);
      acc := acc + found.value;
      j := j + 1;
    }
    assert ops[..j] == ops && bs[..j] == bs;
    ReadsReplay(rows0, |log0|, store.faults, ops, j);
    BatchesPartition(tickers);
    return Some(acc);
  }

  /**
   * The job's comparison loop: visits every fetched record in order and fills the
   * update and insert queues.
   */
  method ClassifyFeed(feed: seq<SymbolRecord>, existing: Table, exchange: string, now: string)
    returns (updates: seq<Candidate>, inserts: seq<Candidate>)
    ensures Queues(updates, inserts) == Classify(feed, existing, exchange, now)
  {
    updates, inserts := [], [];
    var k := 0;
    while k < |feed|
      invariant k <= |feed|
      invariant Queues(updates, inserts) == Classify(feed[..k], existing, exchange, now)
    {
      var stock := feed[k];
      if HasSymbol(stock) {
        var c := CandidateOf(stock, exchange, now);
        if c.ticker in existing {
          if Differs(existing[c.ticker], c) {
            updates := updates + [c];
          }
        } else {
          inserts := inserts + [c.(createdAt := Some(now))];
        }
      }
      assert feed[..k + 1][..k] == feed[..k];
      k := k + 1;
    }
    assert feed[..k] == feed;
  }

  /** The job's update loop: upserts `updates` batch by batch, stopping at the first failure. */
  method UpsertInBatches(store: Store, updates: seq<Candidate>) returns (ok: bool)
    modifies store
    ensures Issued(old(store.rows), old(store.log), store.faults, UpsertOps(Batches(updates)),
                   store.rows, store.log, ok)
  {
    ghost var rows0, log0 := store.rows, store.log;
    var bs := Batches(updates);
    ghost var ops := UpsertOps(bs);
    var j := 0;
    while j < |bs|
      invariant j <= |bs|
      invariant Issued(rows0, log0, store.faults, ops[..j], store.rows, store.log, true)
    {
      ghost var rows, log := store.rows, store.log;
      ok := store.Upsert(bs[j]);
      IssuedNext(rows0, log0, store.faults, ops, j, rows, log, store.rows, store.log, ok);
      if !ok {
        return;
      }
      j := j + 1;
    }
    assert ops[..j] == ops;
    ok := true;
  }

  /** The job's insert loop: inserts `inserts` batch by batch, stopping at the first failure. */
  method InsertInBatches(store: Store, inserts: seq<Candidate>) returns (ok: bool)
    modifies store
    ensures Issued(old(store.rows), old(store.log), store.faults, InsertOps(Batches(inserts)),
                   store.rows, store.log, ok)
  {
    ghost var rows0, log0 := store.rows, store.log;
    var bs := Batches(inserts);
    ghost var ops := InsertOps(bs);
    var j := 0;
    while j < |bs|
      invariant j <= |bs|
      invariant Issued(rows0, log0, store.faults, ops[..j], store.rows, store.log, true)
    {
      ghost var rows, log := store.rows, store.log;
      ok := store.Insert(bs[j]);
      IssuedNext(rows0, log0, store.faults, ops, j, rows, log, store.rows, store.log, ok);
      if !ok {
        return;
      }
      j := j + 1;
    }
    assert ops[..j] == ops;
    ok := true;
  }

  /** The job's two write loops: all update batches, then, if they all went through, all insert batches. */
  method WriteQueues(store: Store, updates: seq<Candidate>, inserts: seq<Candidate>) returns (ok: bool)
    modifies store
    ensures Issued(old(store.rows), old(store.log), store.faults, WriteOps(Queues(updates, inserts)),
                   store.rows, store.log, ok)
  {
    ghost var rows0, log0 := store.rows, store.log;
    ghost var upsOps, insOps := UpsertOps(Batches(updates)), InsertOps(Batches(inserts));
    assert WriteOps(Queues(updates, inserts)) == upsOps + insOps;
    ok := UpsertInBatches(store, updates);
    ghost var rows1, log1, ok1 := store.rows, store.log, ok;
    if ok {
      ok := InsertInBatches(store, inserts);
    }
    IssuedAppend(rows0, log0, store.faults, upsOps, insOps, rows1, log1, ok1, store.rows, store.log, ok);
  }

  /** Classifying against the rows selected for the feed's tickers is classifying against the whole table. */
  lemma ClassifyRestrict(feed: seq<SymbolRecord>, t: Table, exchange: string, now: string)
    ensures Classify(feed, Restrict(t, Tickers(feed)), exchange, now) == Classify(feed, t, exchange, now)
  {
    ClassifyLocal(feed, Restrict(t, Tickers(feed)), t, exchange, now);
  }

  /** A run after a non-empty fetch, as `SyncFeed` describes it. */
  method SyncFetched(store: Store, feed: seq<SymbolRecord>, exchange: string, now: string)
    returns (outcome: RunOutcome)
    modifies store
    ensures var r := SyncFeed(old(store.rows), |old(store.log)|, store.faults, feed, exchange, now);
            store.rows == r.rows && store.log == old(store.log) + r.calls && outcome == r.outcome
  {
    ghost var rows0, log0 := store.rows, store.log;
    ghost var readOps := ReadOps(Batches(Tickers(feed)));
    ghost var writeOps := WriteOps(Classify(feed, rows0, exchange, now));
    var tickers := Tickers(feed);
    var existing := ReadExisting(store, tickers);
    ghost var rows1, log1 := store.rows, store.log;
    var updates: seq<Candidate>, inserts: seq<Candidate> := [], [];
    var ok := existing.Some?;
    if ok {
      updates, inserts := ClassifyFeed(feed, existing.value, exchange, now);
      ClassifyRestrict(feed, rows0, exchange, now);
      ok := WriteQueues(store, updates, inserts);
    }
    IssuedAppend(rows0, log0, store.faults, readOps, writeOps, rows1, log1, existing.Some?, store.rows, store.log, ok);
    SyncFeedIssued(rows0, log0, store.faults, feed, exchange, now, store.rows, store.log, ok);
    if !ok {
      return Failed(StoreError);
    }
    return Completed(|updates|, |inserts|);
  }

  /**
   * `sync_stock_universe`: the run leaves the store, its call log and the outcome
   * exactly as `SyncSpec` describes.
   */
  method SyncStockUniverse(store: Store, exchange: Option<string>, fetched: FetchResult, now: string)
    returns (outcome: RunOutcome)
    modifies store
    ensures var r := SyncSpec(old(store.rows), |old(store.log)|, store.faults, exchange, fetched, now);
            store.rows == r.rows && store.log == old(store.log) + r.calls && outcome == r.outcome
  {
    if exchange.None? {
      return Failed(ExchangeNotConfigured);
    }
    if fetched.FetchFailed? {
      return Failed(FetchError);
    }
    if |fetched.records| == 0 {
      return Failed(NoData);
    }
    outcome := SyncFetched(store, fetched.records, exchange.value, now);
  }
}
