/**
 * The Stock_Universe table as the sync job sees it: rows keyed by stock_ticker,
 * the records the job queues for writing, and the three store calls it issues
 * (a filtered select, an upsert keyed on stock_ticker, a plain insert).
 */
module StockUniverse {
  import opened Wrappers

  /** A symbol as the market-data feed returns it; `None` stands for a missing key or JSON null. */
  datatype SymbolRecord = SymbolRecord(symbol: Option<string>, description: Option<string>, currency: Option<string>)

  /** A row of Stock_Universe; its key, stock_ticker, is the key of the table map. */
  datatype Entry = Entry(
    stockName: Option<string>,
    currency: Option<string>,
    exchange: Option<string>,
    isActive: bool,
    createdAt: Option<string>,
    updatedAt: Option<string>)

  /** A record the job queues for writing (its `api_data` dictionary). */
  datatype Candidate = Candidate(
    ticker: string,
    stockName: Option<string>,
    currency: Option<string>,
    exchange: string,
    isActive: bool,
    updatedAt: string,
    createdAt: Option<string>)

  /** One call of the job to the store. */
  datatype Op =
    | ReadBatch(tickers: seq<string>)
    | UpsertBatch(rows: seq<Candidate>)
    | InsertBatch(rows: seq<Candidate>)

  type Table = map<string, Entry>

  predicate NoDuplicates<T(==)>(s: seq<T>)
  {
    forall i, j | 0 <= i < j < |s| :: s[i] != s[j]
  }

  function TickersOf(cs: seq<Candidate>): seq<string>
  {
    seq(|cs|, k requires 0 <= k < |cs| => cs[k].ticker)
  }

  /** The job's change test: one of the four compared fields of the stored row differs from the candidate. */
  predicate Differs(e: Entry, c: Candidate)
  {
    || e.stockName != c.stockName
    || e.currency != c.currency
    || e.exchange != Some(c.exchange)
    || e.isActive != c.isActive
  }

  /**
   * The row left behind by writing `c` over `prev`: the payload's columns overwrite,
   * created_at is kept unless the payload carries one.
   */
  function Merge(c: Candidate, prev: Option<Entry>): (e: Entry)
    ensures !Differs(e, c)
    ensures e.updatedAt == Some(c.updatedAt)
    ensures e.createdAt == (if c.createdAt.Some? then c.createdAt
                            else if prev.Some? then prev.value.createdAt else None)
  {
    Entry(c.stockName, c.currency, Some(c.exchange), c.isActive,
          if c.createdAt.Some? then c.createdAt else if prev.Some? then prev.value.createdAt else None,
          Some(c.updatedAt))
  }

  function Get(t: Table, k: string): Option<Entry>
  {
    if k in t then Some(t[k]) else None
  }

  /** Writes the candidates one after the other. */
  function WriteAll(t: Table, cs: seq<Candidate>): Table
    decreases |cs|
  {
    if cs == [] then t
    else WriteAll(t[cs[0].ticker := Merge(cs[0], Get(t, cs[0].ticker))], cs[1..])
  }

  /** The rows of `t` whose key is one of `tickers`: the `.in_("stock_ticker", batch)` select. */
  function Restrict(t: Table, tickers: seq<string>): Table
  {
    map k | k in t && k in tickers :: t[k]
  }

  /** Selecting `a + b` returns the rows selected by `a` together with those selected by `b`. */
  lemma RestrictAppend(t: Table, a: seq<string>, b: seq<string>)
    ensures Restrict(t, a + b) == Restrict(t, a) + Restrict(t, b)
  {
  }

  /**
   * Whether the store accepts a call on table `t` (network faults aside).
   * stock_ticker is unique: an insert is rejected when a ticker is already stored
   * or repeated in the batch, an upsert when a ticker is repeated in the batch.
   */
  predicate Accepts(t: Table, op: Op)
  {
    match op
    case ReadBatch(_) => true
    case UpsertBatch(cs) => NoDuplicates(TickersOf(cs))
    case InsertBatch(cs) => NoDuplicates(TickersOf(cs)) && AllNew(t, cs)
  }

  /** No candidate of `cs` has a ticker already stored in `t`. */
  predicate AllNew(t: Table, cs: seq<Candidate>)
  {
    forall k | 0 <= k < |cs| :: cs[k].ticker !in t
  }

  /** The table after an accepted call. */
  function Apply(t: Table, op: Op): Table
  {
    match op
    case ReadBatch(_) => t
    case UpsertBatch(cs) => WriteAll(t, cs)
    case InsertBatch(cs) => WriteAll(t, cs)
  }

  /** Two candidates for the same ticker that agree on every column the change test compares. */
  predicate SameFields(a: Candidate, b: Candidate)
  {
    && a.ticker == b.ticker && a.stockName == b.stockName && a.currency == b.currency
    && a.exchange == b.exchange && a.isActive == b.isActive
  }

  /** Writing `a` and then `b` is writing `a + b`: batches compose. */
  lemma {:induction false} WriteAllAppend(t: Table, a: seq<Candidate>, b: seq<Candidate>)
    ensures WriteAll(t, a + b) == WriteAll(WriteAll(t, a), b)
    decreases |a|
  {
    if a == [] {
      assert a + b == b;
    } else {
      assert (a + b)[0] == a[0] && (a + b)[1..] == a[1..] + b;
      WriteAllAppend(t[a[0].ticker := Merge(a[0], Get(t, a[0].ticker))], a[1..], b);
    }
  }

  /** A key that no candidate carries keeps its row, or stays absent. */
  lemma {:induction false} WriteAllUntouched(t: Table, cs: seq<Candidate>, k: string)
    requires forall i | 0 <= i < |cs| :: cs[i].ticker != k
    ensures Get(WriteAll(t, cs), k) == Get(t, k)
    decreases |cs|
  {
    if cs != [] {
      var t' := t[cs[0].ticker := Merge(cs[0], Get(t, cs[0].ticker))];
      assert forall i | 0 <= i < |cs[1..]| :: cs[1..][i] == cs[i + 1];
      WriteAllUntouched(t', cs[1..], k);
    }
  }

  /** Writing never deletes: the keys afterwards are the old keys plus every candidate's ticker. */
  lemma {:induction false} WriteAllKeys(t: Table, cs: seq<Candidate>)
    ensures WriteAll(t, cs).Keys == t.Keys + set i | 0 <= i < |cs| :: cs[i].ticker
    decreases |cs|
  {
    if cs != [] {
      var t' := t[cs[0].ticker := Merge(cs[0], Get(t, cs[0].ticker))];
      WriteAllKeys(t', cs[1..]);
      var rest := set i | 0 <= i < |cs[1..]| :: cs[1..][i].ticker;
      var all := set i | 0 <= i < |cs| :: cs[i].ticker;
      assert all == {cs[0].ticker} + rest by {
        forall x | x in all ensures x in {cs[0].ticker} + rest {
          var i :| 0 <= i < |cs| && cs[i].ticker == x;
          if i > 0 { assert cs[1..][i - 1].ticker == x; }
        }
        forall x | x in rest ensures x in all {
          var i :| 0 <= i < |cs[1..]| && cs[1..][i].ticker == x;
          assert cs[i + 1].ticker == x;
        }
      }
    }
  }

  /** Writing only active candidates never deactivates a row: an active row stays, and stays active. */
  lemma {:induction false} WriteAllKeepsActive(t: Table, cs: seq<Candidate>, k: string)
    requires forall i | 0 <= i < |cs| :: cs[i].isActive
    requires k in t && t[k].isActive
    ensures k in WriteAll(t, cs) && WriteAll(t, cs)[k].isActive
    decreases |cs|
  {
    if cs != [] {
      var t' := t[cs[0].ticker := Merge(cs[0], Get(t, cs[0].ticker))];
      assert k in t' && t'[k].isActive;
      assert forall i | 0 <= i < |cs[1..]| :: cs[1..][i] == cs[i + 1];
      WriteAllKeepsActive(t', cs[1..], k);
    }
  }

  /**
   * The row of a written ticker agrees with the candidates that carry it, when these
   * agree among themselves on the compared columns.
   */
  lemma {:induction false} WriteAllAgrees(t: Table, cs: seq<Candidate>, c: Candidate)
    requires exists i :: 0 <= i < |cs| && cs[i].ticker == c.ticker
    requires forall i | 0 <= i < |cs| && cs[i].ticker == c.ticker :: SameFields(cs[i], c)
    ensures c.ticker in WriteAll(t, cs) && !Differs(WriteAll(t, cs)[c.ticker], c)
    decreases |cs|
  {
    var t' := t[cs[0].ticker := Merge(cs[0], Get(t, cs[0].ticker))];
    assert forall i | 0 <= i < |cs[1..]| :: cs[1..][i] == cs[i + 1];
    if exists i :: 0 <= i < |cs[1..]| && cs[1..][i].ticker == c.ticker {
      WriteAllAgrees(t', cs[1..], c);
    } else {
      WriteAllUntouched(t', cs[1..], c.ticker);
      assert SameFields(cs[0], c);
    }
  }

  /** Writing candidates whose tickers are new and distinct adds exactly one row each. */
  lemma {:induction false} WriteAllGrows(t: Table, cs: seq<Candidate>)
    requires NoDuplicates(TickersOf(cs)) && AllNew(t, cs)
    ensures |WriteAll(t, cs)| == |t| + |cs|
    decreases |cs|
  {
    if cs != [] {
      var t' := t[cs[0].ticker := Merge(cs[0], Get(t, cs[0].ticker))];
      assert TickersOf(cs)[0] == cs[0].ticker;
      assert forall i | 0 <= i < |cs[1..]| :: TickersOf(cs[1..])[i] == TickersOf(cs)[i + 1];
      forall i | 0 <= i < |cs[1..]| ensures cs[1..][i].ticker !in t' {
        assert TickersOf(cs)[0] != TickersOf(cs)[i + 1];
      }
      WriteAllGrows(t', cs[1..]);
    }
  }

  /**
   * The Stock_Universe table. `log` lists every call made, `faults` the positions in
   * the log of the calls that fail for reasons outside the model (network, API errors).
   */
  class Store {
    var rows: Table
    var log: seq<Op>
    const faults: set<nat>

    constructor (initial: Table, faults: set<nat>)
      ensures rows == initial && log == [] && this.faults == faults
    {
      rows := initial;
      log := [];
      this.faults := faults;
    }

    /** select(...).in_("stock_ticker", tickers): the stored rows for those tickers, or an error. */
    method Select(tickers: seq<string>) returns (found: Option<Table>)
      modifies this
      ensures rows == old(rows) && log == old(log) + [ReadBatch(tickers)]
      ensures found.None? <==> |old(log)| in faults
      ensures found.Some? ==> found.value == Restrict(rows, tickers)
    {
      if |log| in faults {
        found := None;
      } else {
        found := Some(Restrict(rows, tickers));
      }
      log := log + [ReadBatch(tickers)];
    }

    /** upsert(batch, on_conflict=["stock_ticker"]); `ok` is false when the store raises. */
    method Upsert(batch: seq<Candidate>) returns (ok: bool)
      modifies this
      ensures log == old(log) + [UpsertBatch(batch)]
      ensures ok == (|old(log)| !in faults && Accepts(old(rows), UpsertBatch(batch)))
      ensures rows == if ok then Apply(old(rows), UpsertBatch(batch)) else old(rows)
    {
      ok := |log| !in faults && Accepts(rows, UpsertBatch(batch));
      if ok {
        rows := Apply(rows, UpsertBatch(batch));
      }
      log := log + [UpsertBatch(batch)];
    }

    /** insert(batch); `ok` is false when the store raises. */
    method Insert(batch: seq<Candidate>) returns (ok: bool)
      modifies this
      ensures log == old(log) + [InsertBatch(batch)]
      ensures ok == (|old(log)| !in faults && Accepts(old(rows), InsertBatch(batch)))
      ensures rows == if ok then Apply(old(rows), InsertBatch(batch)) else old(rows)
    {
      ok := |log| !in faults && Accepts(rows, InsertBatch(batch));
      if ok {
        rows := Apply(rows, InsertBatch(batch));
      }
      log := log + [InsertBatch(batch)];
    }
  }
}
