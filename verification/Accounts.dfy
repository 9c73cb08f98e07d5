/** Canonical account types and the side on which each type normally sits. */
module Accounts {
  import opened Wrappers

  datatype AccountType = Asset | Liability | Equity | Income | Expense | CostOfGoodsSold
  datatype Side = Debit | Credit
  datatype Classification = Classification(kind: AccountType, normal: Side)

  function InferNormalBalance(kind: AccountType): (side: Side)
    ensures side.Debit? <==> kind in {Asset, Expense, CostOfGoodsSold}
  {
    if kind.Asset? || kind.Expense? || kind.CostOfGoodsSold? then Debit else Credit
  }

  function SignedBalance(debit: int, credit: int, normal: Side): int {
    var net := debit - credit;
    if normal.Debit? then net else -net
  }

  /** Names outside the table fall back to Asset. */
  function ToCanonicalType(name: string): AccountType {
    if name in ["Liability", "Accounts Payable", "Credit Card", "Other Current Liability", "Long Term Liability"]
      then Liability
    else if name == "Equity" then Equity
    else if name in ["Income", "Other Income"] then Income
    else if name in ["Expense", "Expenses", "Other Expense"] then Expense
    else if name in ["CostOfGoodsSold", "Cost of Goods Sold"] then CostOfGoodsSold
    else Asset
  }

  function ResolveClassification(name: string): (c: Classification)
    ensures c.normal == InferNormalBalance(c.kind)
  {
    var kind := ToCanonicalType(name);
    Classification(kind, InferNormalBalance(kind))
  }

  /**
   One row of the chart of accounts. Reports skip header accounts and
   soft-deleted ones; `retained` says that the name contains "Retained Earnings".
   */
  datatype Account = Account(
    id: string, kind: AccountType, normal: Side, active: bool, deleted: bool, header: bool, retained: bool)
  {
    predicate Listed() { !deleted && !header }
  }

  predicate IsProfitAndLoss(kind: AccountType) {
    kind.Income? || kind.Expense? || kind.CostOfGoodsSold?
  }

  predicate Classified(a: Account) {
    a.normal == InferNormalBalance(a.kind)
  }

  ghost predicate DistinctIds(chart: seq<Account>) {
    forall i, j :: 0 <= i < j < |chart| ==> chart[i].id != chart[j].id
  }

  function Find(chart: seq<Account>, id: string): (found: Option<Account>)
    ensures found.Some? ==> found.value in chart && found.value.id == id
    ensures found.None? ==> forall a :: a in chart ==> a.id != id
  {
    if chart == [] then None
    else
      var last := chart[|chart| - 1];
      assert chart == chart[..|chart| - 1] + [last];
      if last.id == id then Some(last) else Find(chart[..|chart| - 1], id)
  }

  lemma FindMember(chart: seq<Account>, a: Account)
    requires DistinctIds(chart) && a in chart
    ensures Find(chart, a.id) == Some(a)
  {
    var b := Find(chart, a.id).value;
    var i :| 0 <= i < |chart| && chart[i] == a;
    var j :| 0 <= j < |chart| && chart[j] == b;
  }
}
