/** Per-bank base ratios of 02_bank_stress_lab/analytics/metrics.py.

    The aggregate query yields one row per bank: deposits and capital from
    the bank table, and sums over its loans (NULL when the bank has no
    loans, and `npl_amt` also NULL when no loan is in default). For each
    row the routine computes the loan-to-deposit ratio, the NPL share and
    the capital-adequacy ratio, falling back to `None` (or to 0 for the NPL
    share) where a divisor or numerator is NULL or zero, and issues one
    upsert keyed by `(as_of, bank_id)`. */
module BankMetrics {
  import opened Common

  datatype BankRow = BankRow(
    bankId: int,
    deposits: Option<real>,
    capital: Option<real>,
    totalLoans: Option<real>,
    riskWeightedLoans: Option<real>,
    nplAmt: Option<real>)

  datatype Ratios = Ratios(ldr: Option<real>, nplPct: Option<real>, car: Option<real>)

  /** Lines 35-43. `capital / risk_weighted_loans` with a NULL capital is
      the one unguarded case: Python raises `TypeError`. */
  function BankRatios(row: BankRow): (r: Result<Ratios>)
    ensures !Truthy(row.totalLoans) ==> r == Ok(Ratios(None, None, None))
    ensures r.Err? <==> Truthy(row.totalLoans) && Truthy(row.riskWeightedLoans) && row.capital.None?
    ensures r.Err? ==> r.error == TypeError
    ensures r.Ok? ==> (r.value.ldr.Some? <==> Truthy(row.totalLoans) && Truthy(row.deposits))
    ensures r.Ok? && r.value.ldr.Some? ==> r.value.ldr.value * row.deposits.value == row.totalLoans.value
    ensures r.Ok? ==> (r.value.nplPct.Some? <==> Truthy(row.totalLoans))
    ensures r.Ok? && r.value.nplPct.Some? && Truthy(row.nplAmt) ==>
      r.value.nplPct.value * row.totalLoans.value == row.nplAmt.value
    ensures r.Ok? && r.value.nplPct.Some? && !Truthy(row.nplAmt) ==> r.value.nplPct.value == 0.0
    ensures r.Ok? ==> (r.value.car.Some? <==> Truthy(row.totalLoans) && Truthy(row.riskWeightedLoans))
    ensures r.Ok? && r.value.car.Some? ==> r.value.car.value * row.riskWeightedLoans.value == row.capital.value
  {
    if !Truthy(row.totalLoans) then Ok(Ratios(None, None, None))
    else
      var loans := row.totalLoans.value;
      var ldr := if Truthy(row.deposits) then Some(loans / row.deposits.value) else None;
      var nplPct := if Truthy(row.nplAmt) then Some(row.nplAmt.value / loans) else Some(0.0);
      if !Truthy(row.riskWeightedLoans) then Ok(Ratios(ldr, nplPct, None))
      else if row.capital.None? then Err(TypeError)
      else Ok(Ratios(ldr, nplPct, Some(row.capital.value / row.riskWeightedLoans.value)))
  }

  /** The parameters of one `INSERT ... ON CONFLICT (as_of, bank_id) DO UPDATE`. */
  datatype Upsert = Upsert(
    asOf: int,
    bankId: int,
    loans: Option<real>,
    deposits: Option<real>,
    npl: Option<real>,
    ratios: Ratios)

  function UpsertFor(asOf: int, row: BankRow, ratios: Ratios): Upsert {
    Upsert(asOf, row.bankId, row.totalLoans, row.deposits, row.nplAmt, ratios)
  }

  /** The loop over the rows: one upsert per row, in row order; a row whose
      ratios raise aborts the whole batch. */
  method ComputeBaseMetrics(asOf: int, rows: seq<BankRow>) returns (r: Result<seq<Upsert>>)
    ensures r.Ok? <==> forall i :: 0 <= i < |rows| ==> BankRatios(rows[i]).Ok?
    ensures r.Err? ==> r.error == TypeError
    ensures r.Ok? ==> |r.value| == |rows|
    ensures r.Ok? ==> forall i :: 0 <= i < |rows| ==>
      r.value[i] == UpsertFor(asOf, rows[i], BankRatios(rows[i]).value)
  {
    var issued: seq<Upsert> := [];
    for i := 0 to |rows|
      invariant |issued| == i
      invariant forall j :: 0 <= j < i ==> BankRatios(rows[j]).Ok?
      invariant forall j :: 0 <= j < i ==> issued[j] == UpsertFor(asOf, rows[j], BankRatios(rows[j]).value)
    {
      var ratios := BankRatios(rows[i]);
      if ratios.Err? {
        return Err(ratios.error);
      }
      issued := issued + [UpsertFor(asOf, rows[i], ratios.value)];
    }
    return Ok(issued);
  }

  /** The `bank_metrics` table, keyed by `(as_of, bank_id)`. */
  type MetricsTable = map<(int, int), Upsert>

  function Key(u: Upsert): (int, int) {
    (u.asOf, u.bankId)
  }

  /** Applying the upserts in order: insert, or overwrite on conflict. */
  function Store(table: MetricsTable, ups: seq<Upsert>): MetricsTable
    decreases |ups|
  {
    if |ups| == 0 then table
    else
      var u := ups[|ups| - 1];
      Store(table, ups[..|ups| - 1])[Key(u) := u]
  }

  ghost predicate DistinctBanks(rows: seq<BankRow>) {
    forall i, j :: 0 <= i < j < |rows| ==> rows[i].bankId != rows[j].bankId
  }

  ghost predicate DistinctKeys(ups: seq<Upsert>) {
    forall i, j :: 0 <= i < j < |ups| ==> Key(ups[i]) != Key(ups[j])
  }

  /** After a batch of upserts with distinct keys, each key holds its own
      upsert. */
  lemma {:induction false} StoreHoldsEachUpsert(table: MetricsTable, ups: seq<Upsert>)
    requires DistinctKeys(ups)
    ensures forall i :: 0 <= i < |ups| ==> Key(ups[i]) in Store(table, ups) && Store(table, ups)[Key(ups[i])] == ups[i]
  {
    if |ups| > 0 {
      var init := ups[..|ups| - 1];
      assert forall i :: 0 <= i < |init| ==> init[i] == ups[i];
      StoreHoldsEachUpsert(table, init);
    }
  }

  /** Keys the batch does not mention keep the row they had. */
  lemma {:induction false} StoreKeepsOtherKeys(table: MetricsTable, ups: seq<Upsert>, k: (int, int))
    requires k in table
    requires forall i :: 0 <= i < |ups| ==> Key(ups[i]) != k
    ensures k in Store(table, ups) && Store(table, ups)[k] == table[k]
  {
    if |ups| > 0 {
      var init := ups[..|ups| - 1];
      assert forall i :: 0 <= i < |init| ==> init[i] == ups[i];
      StoreKeepsOtherKeys(table, init, k);
    }
  }

  /** The stored keys are the old keys plus the batch's keys: nothing is
      deleted. */
  lemma {:induction false} StoreKeys(table: MetricsTable, ups: seq<Upsert>)
    ensures Store(table, ups).Keys == table.Keys + set i | 0 <= i < |ups| :: Key(ups[i])
  {
    if |ups| > 0 {
      var init := ups[..|ups| - 1];
      StoreKeys(table, init);
      var keys := set i | 0 <= i < |ups| :: Key(ups[i]);
      var initKeys := set i | 0 <= i < |init| :: Key(init[i]);
      assert keys == initKeys + {Key(ups[|ups| - 1])};
    }
  }

  /** Running the batch over banks with distinct ids leaves exactly one
      row per bank under `(as_of, bank_id)`, holding that bank's ratios. */
  lemma BatchStoresOneRowPerBank(table: MetricsTable, asOf: int, rows: seq<BankRow>, ups: seq<Upsert>)
    requires DistinctBanks(rows)
    requires |ups| == |rows|
    requires forall i :: 0 <= i < |rows| ==> BankRatios(rows[i]).Ok?
    requires forall i :: 0 <= i < |rows| ==> ups[i] == UpsertFor(asOf, rows[i], BankRatios(rows[i]).value)
    ensures forall i :: 0 <= i < |rows| ==>
      (asOf, rows[i].bankId) in Store(table, ups)
      && Store(table, ups)[(asOf, rows[i].bankId)].ratios == BankRatios(rows[i]).value
  {
    assert DistinctKeys(ups);
    StoreHoldsEachUpsert(table, ups);
  }
}
