/** Opening receivables and payables, kept as documents in the four native tables. */
module Subledger {
  import opened Wrappers
  import opened Sums
  import opened Money

  datatype Kind = Receivable | Payable
  datatype Table = Invoices | Bills | CustomerCredits | VendorCredits

  /** The stable key; `digest` stands for the hash of the kind and the source key. */
  datatype Key = Key(reconciliation: string, kind: Kind, digest: string)

  /** A document; only opening documents have a key. Amounts are stored in whole ten-thousandths. */
  datatype Row = Row(key: Option<Key>, party: string, date: int, currency: string, total: int, lines: seq<int>, deleted: bool)

  datatype Store = Store(invoices: seq<Row>, bills: seq<Row>, customerCredits: seq<Row>, vendorCredits: seq<Row>)

  /** A balance as imported, in currency units. */
  datatype Balance = Balance(kind: Kind, digest: string, party: string, amount: real)

  datatype Run = Run(reconciliation: string, date: int, currency: string)

  function Of(s: Store, t: Table): seq<Row> {
    match t
    case Invoices => s.invoices
    case Bills => s.bills
    case CustomerCredits => s.customerCredits
    case VendorCredits => s.vendorCredits
  }

  function With(s: Store, t: Table, rows: seq<Row>): (r: Store)
    ensures Of(r, t) == rows && forall u :: u != t ==> Of(r, u) == Of(s, u)
  {
    match t
    case Invoices => s.(invoices := rows)
    case Bills => s.(bills := rows)
    case CustomerCredits => s.(customerCredits := rows)
    case VendorCredits => s.(vendorCredits := rows)
  }

  // ---- Which document a balance becomes ----

  function TableFor(kind: Kind, amount: real): Table {
    if kind.Receivable? then (if amount >= 0.0 then Invoices else CustomerCredits)
    else if amount >= 0.0 then Bills else VendorCredits
  }

  function Magnitude(amount: real): real { if amount < 0.0 then -amount else amount }

  predicate Negligible(b: Balance) { Magnitude(b.amount) < 0.000001 }

  function KeyFor(run: Run, b: Balance): Key { Key(run.reconciliation, b.kind, b.digest) }

  function RowFor(run: Run, b: Balance): Row {
    var total := Round(10000.0 * Magnitude(b.amount));
    Row(Some(KeyFor(run, b)), b.party, run.date, run.currency, total,
        if TableFor(b.kind, b.amount) in {Invoices, Bills} then [total] else [], false)
  }

  // ---- Clearing and placing ----

  predicate OfRun(r: Row, reconciliation: string) { r.key.Some? && r.key.value.reconciliation == reconciliation }

  function Clear(reconciliation: string): Row -> Row {
    (r: Row) => if OfRun(r, reconciliation) then r.(deleted := true) else r
  }

  function Cleared(s: Store, reconciliation: string): Store {
    Store(Map(s.invoices, Clear(reconciliation)), Map(s.bills, Clear(reconciliation)),
          Map(s.customerCredits, Clear(reconciliation)), Map(s.vendorCredits, Clear(reconciliation)))
  }

  /** The position of the row with the key, deleted or not; |rows| when there is none. */
  function Position(rows: seq<Row>, key: Key): (k: nat)
    ensures k <= |rows|
    ensures k < |rows| ==> rows[k].key == Some(key)
    ensures k == |rows| ==> forall i :: 0 <= i < |rows| ==> rows[i].key != Some(key)
  {
    if rows == [] then 0
    else
      var k := Position(rows[..|rows| - 1], key);
      if k < |rows| - 1 then k else if rows[|rows| - 1].key == Some(key) then |rows| - 1 else |rows|
  }

  function Upsert(rows: seq<Row>, key: Key, row: Row): seq<Row> {
    var k := Position(rows, key);
    if k < |rows| then rows[k := row] else rows + [row]
  }

  function PlaceOne(s: Store, run: Run, b: Balance): Store {
    if Negligible(b) then s
    else
      var t := TableFor(b.kind, b.amount);
      With(s, t, Upsert(Of(s, t), KeyFor(run, b), RowFor(run, b)))
  }

  function Place(s: Store, run: Run, balances: seq<Balance>): Store {
    if balances == [] then s else PlaceOne(Place(s, run, balances[..|balances| - 1]), run, balances[|balances| - 1])
  }

  function Materialize(s: Store, run: Run, balances: seq<Balance>): Store {
    Place(Cleared(s, run.reconciliation), run, balances)
  }

  // ---- Keys stay unique ----

  ghost predicate UniqueKeys(rows: seq<Row>) {
    forall i, j :: 0 <= i < j < |rows| && rows[i].key.Some? ==> rows[i].key != rows[j].key
  }

  ghost predicate Valid(s: Store) { forall t :: UniqueKeys(Of(s, t)) }

  /** The live document under a key. */
  function Live(rows: seq<Row>, key: Key): Option<Row> {
    var k := Position(rows, key);
    if k < |rows| && !rows[k].deleted then Some(rows[k]) else None
  }

  lemma PositionIs(rows: seq<Row>, key: Key, k: nat)
    requires UniqueKeys(rows) && k < |rows| && rows[k].key == Some(key)
    ensures Position(rows, key) == k
  {
  }

  lemma UpsertLive(rows: seq<Row>, key: Key, row: Row, other: Key)
    requires UniqueKeys(rows) && row.key == Some(key) && !row.deleted
    ensures UniqueKeys(Upsert(rows, key, row))
    ensures Live(Upsert(rows, key, row), other) == if other == key then Some(row) else Live(rows, other)
  {
    var after := Upsert(rows, key, row);
    var k := Position(after, other);
    if other == key {
      PositionIs(after, key, Position(rows, key));
    } else if k < |after| {
      PositionIs(rows, other, k);
    } else if Position(rows, other) < |rows| {
      PositionIs(after, other, Position(rows, other));
    }
  }

  lemma ClearLive(rows: seq<Row>, reconciliation: string, key: Key)
    requires UniqueKeys(rows)
    ensures UniqueKeys(Map(rows, Clear(reconciliation)))
    ensures Live(Map(rows, Clear(reconciliation)), key) == if key.reconciliation == reconciliation then None else Live(rows, key)
  {
    var after := Map(rows, Clear(reconciliation));
    var k := Position(after, key);
    if k < |after| {
      PositionIs(rows, key, k);
    } else if Position(rows, key) < |rows| {
      PositionIs(after, key, Position(rows, key));
    }
  }

  lemma ClearedIs(s: Store, reconciliation: string, t: Table)
    ensures Of(Cleared(s, reconciliation), t) == Map(Of(s, t), Clear(reconciliation))
  {
  }

  // ---- The live documents depend on the latest balances only ----

  /** The document that the balances call for in a table under a key: that of the last balance sent there. */
  function Expected(run: Run, balances: seq<Balance>, t: Table, key: Key): Option<Row> {
    if balances == [] then None
    else
      var last := balances[|balances| - 1];
      if !Negligible(last) && TableFor(last.kind, last.amount) == t && KeyFor(run, last) == key
        then Some(RowFor(run, last))
        else Expected(run, balances[..|balances| - 1], t, key)
  }

  lemma {:induction false} PlaceLive(s: Store, run: Run, balances: seq<Balance>, t: Table, key: Key)
    requires Valid(s)
    ensures Valid(Place(s, run, balances))
    ensures Live(Of(Place(s, run, balances), t), key)
         == if Expected(run, balances, t, key).Some? then Expected(run, balances, t, key) else Live(Of(s, t), key)
  {
    hide Live, Upsert, RowFor, Negligible, UniqueKeys;
    if balances != [] {
      var init, last := balances[..|balances| - 1], balances[|balances| - 1];
      PlaceLive(s, run, init, t, key);
      var before := Place(s, run, init);
      if !Negligible(last) {
        var u := TableFor(last.kind, last.amount);
        RowForKey(run, last);
        UpsertLive(Of(before, u), KeyFor(run, last), RowFor(run, last), key);
      }
    }
  }

  lemma RowForKey(run: Run, b: Balance)
    ensures RowFor(run, b).key == Some(KeyFor(run, b)) && !RowFor(run, b).deleted
  {
  }

  /**
   After a rerun the live opening documents are those its own balances call for,
   each in the table its sign picks, whatever earlier runs left; documents of other
   reconciliations are as they were.
   */
  lemma LatestBalancesOnly(s: Store, run: Run, balances: seq<Balance>, t: Table, key: Key)
    requires Valid(s)
    ensures Valid(Materialize(s, run, balances))
    ensures Live(Of(Materialize(s, run, balances), t), key)
         == if key.reconciliation == run.reconciliation then Expected(run, balances, t, key) else Live(Of(s, t), key)
  {
    hide Live, UniqueKeys, Expected;
    forall u ensures UniqueKeys(Of(Cleared(s, run.reconciliation), u)) {
      ClearLive(Of(s, u), run.reconciliation, key);
      ClearedIs(s, run.reconciliation, u);
    }
    ClearLive(Of(s, t), run.reconciliation, key);
    ClearedIs(s, run.reconciliation, t);
    PlaceLive(Cleared(s, run.reconciliation), run, balances, t, key);
    ExpectedOfRun(run, balances, t, key);
  }

  lemma {:induction false} ExpectedOfRun(run: Run, balances: seq<Balance>, t: Table, key: Key)
    ensures Expected(run, balances, t, key).Some? ==> key.reconciliation == run.reconciliation
  {
    if balances != [] { ExpectedOfRun(run, balances[..|balances| - 1], t, key); }
  }

  /** Any history of earlier runs leads to the same live documents. */
  lemma {:induction false} HistoryDoesNotMatter(
      s: Store, history: seq<(Run, seq<Balance>)>, run: Run, balances: seq<Balance>, t: Table, key: Key)
    requires Valid(s) && key.reconciliation == run.reconciliation
    ensures Live(Of(Materialize(AfterAll(s, history), run, balances), t), key)
         == Live(Of(Materialize(s, run, balances), t), key)
  {
    hide Live, Materialize, Valid;
    AfterAllValid(s, history);
    LatestBalancesOnly(AfterAll(s, history), run, balances, t, key);
    LatestBalancesOnly(s, run, balances, t, key);
  }

  function AfterAll(s: Store, history: seq<(Run, seq<Balance>)>): Store {
    if history == [] then s
    else
      var (run, balances) := history[|history| - 1];
      Materialize(AfterAll(s, history[..|history| - 1]), run, balances)
  }

  lemma {:induction false} AfterAllValid(s: Store, history: seq<(Run, seq<Balance>)>)
    requires Valid(s)
    ensures Valid(AfterAll(s, history))
  {
    hide Materialize, Valid;
    if history != [] {
      AfterAllValid(s, history[..|history| - 1]);
      var (run, balances) := history[|history| - 1];
      LatestBalancesOnly(AfterAll(s, history[..|history| - 1]), run, balances, Invoices, Key("", Receivable, ""));
    }
  }

  /** No balance after the n-th has its kind and source key. */
  ghost predicate LastOfItsKey(balances: seq<Balance>, n: nat)
    requires n < |balances|
  {
    forall j :: n < j < |balances| ==> !(balances[j].kind == balances[n].kind && balances[j].digest == balances[n].digest)
  }

  lemma {:induction false} ExpectedLast(run: Run, balances: seq<Balance>, n: nat, m: nat, t: Table)
    requires n < m <= |balances| && LastOfItsKey(balances, n) && !Negligible(balances[n])
    requires TableFor(balances[n].kind, balances[n].amount) == t
    ensures Expected(run, balances[..m], t, KeyFor(run, balances[n])) == Some(RowFor(run, balances[n]))
  {
    hide Negligible, RowFor;
    assert balances[..m][..m - 1] == balances[..m - 1];
    if n < m - 1 { ExpectedLast(run, balances, n, m - 1, t); }
  }

  /**
   The document itself. The last balance of a kind and source key, of a millionth or more,
   is an invoice or a bill when it is not negative and a credit of its party when it is:
   under the run's key, of the balance's party, with the date and currency of the run, for
   the size of the balance to within half a ten-thousandth, on one line or on none.
   */
  lemma DocumentIs(s: Store, run: Run, balances: seq<Balance>, n: nat)
    requires Valid(s) && n < |balances| && LastOfItsKey(balances, n)
    requires balances[n].amount >= 0.000001 || balances[n].amount <= -0.000001
    ensures var b := balances[n];
      var debt := b.amount > 0.0;
      var t := if b.kind.Receivable? then (if debt then Invoices else CustomerCredits) else if debt then Bills else VendorCredits;
      var live := Live(Of(Materialize(s, run, balances), t), Key(run.reconciliation, b.kind, b.digest));
      && live.Some? && var d := live.value;
         && d.party == b.party && d.date == run.date && d.currency == run.currency && !d.deleted
         && d.lines == (if debt then [d.total] else [])
         && d.total as real - 0.5 <= 10000.0 * (if debt then b.amount else -b.amount) < d.total as real + 0.5
  {
    hide Live, Materialize, Valid, Expected, LastOfItsKey;
    var b := balances[n];
    var t := TableFor(b.kind, b.amount);
    ExpectedLast(run, balances, n, |balances|, t);
    assert balances[..|balances|] == balances;
    LatestBalancesOnly(s, run, balances, t, KeyFor(run, b));
  }

  // ---- Totals ----

  ghost predicate Distinct(balances: seq<Balance>) {
    forall i, j :: 0 <= i < j < |balances| && !Negligible(balances[i]) && !Negligible(balances[j]) ==>
      !(balances[i].kind == balances[j].kind && balances[i].digest == balances[j].digest)
  }

  /** A weight that deleted documents do not carry. */
  ghost predicate OnLive(f: Row -> int) { forall r: Row :: r.deleted ==> f(r) == 0 }

  function Placed(run: Run, t: Table, f: Row -> int): Balance -> int {
    (b: Balance) => if !Negligible(b) && TableFor(b.kind, b.amount) == t then f(RowFor(run, b)) else 0
  }

  lemma UpsertSum(rows: seq<Row>, key: Key, row: Row, f: Row -> int)
    requires OnLive(f) && Live(rows, key).None?
    ensures Sum(Upsert(rows, key, row), f) == Sum(rows, f) + f(row)
  {
    var k := Position(rows, key);
    if k < |rows| {
      assert rows == (rows[..k] + [rows[k]]) + rows[k + 1..];
      assert rows[k := row] == (rows[..k] + [row]) + rows[k + 1..];
      SumAppend(rows[..k] + [rows[k]], rows[k + 1..], f);
      SumAppend(rows[..k] + [row], rows[k + 1..], f);
      SumStep(rows[..k], rows[k], f);
      SumStep(rows[..k], row, f);
    } else {
      SumStep(rows, row, f);
    }
  }

  lemma {:induction false} NotExpectedBefore(run: Run, balances: seq<Balance>, m: nat, n: nat, t: Table)
    requires Distinct(balances) && m <= n < |balances| && !Negligible(balances[n])
    ensures Expected(run, balances[..m], t, KeyFor(run, balances[n])).None?
  {
    if m > 0 {
      assert balances[..m][..m - 1] == balances[..m - 1];
      NotExpectedBefore(run, balances, m - 1, n, t);
    }
  }

  lemma {:induction false} PlaceSum(s: Store, run: Run, balances: seq<Balance>, n: nat, t: Table, f: Row -> int)
    requires Valid(s) && Distinct(balances) && OnLive(f) && n <= |balances|
    requires forall key: Key :: key.reconciliation == run.reconciliation ==> Live(Of(s, t), key).None?
    ensures Sum(Of(Place(s, run, balances[..n]), t), f) == Sum(Of(s, t), f) + Sum(balances[..n], Placed(run, t, f))
  {
    hide Live, Upsert, UniqueKeys, Negligible, OnLive, RowFor;
    if n > 0 {
      var last := balances[n - 1];
      assert balances[..n][..n - 1] == balances[..n - 1];
      PlaceSum(s, run, balances, n - 1, t, f);
      SumPrefixStep(balances, n - 1, Placed(run, t, f));
      if !Negligible(last) && TableFor(last.kind, last.amount) == t {
        PlaceLive(s, run, balances[..n - 1], t, KeyFor(run, last));
        NotExpectedBefore(run, balances, n - 1, n - 1, t);
        UpsertSum(Of(Place(s, run, balances[..n - 1]), t), KeyFor(run, last), RowFor(run, last), f);
      }
    }
  }

  /** Live documents of a reconciliation and kind: their number and their total. */
  function CountOf(reconciliation: string, kind: Kind): Row -> int {
    (r: Row) => if OfRun(r, reconciliation) && r.key.value.kind == kind && !r.deleted then 1 else 0
  }
  function TotalOf(reconciliation: string, kind: Kind): Row -> int {
    (r: Row) => if OfRun(r, reconciliation) && r.key.value.kind == kind && !r.deleted then r.total else 0
  }

  function Owed(kind: Kind): Table { if kind.Receivable? then Invoices else Bills }
  function Credited(kind: Kind): Table { if kind.Receivable? then CustomerCredits else VendorCredits }

  function SignedTotal(s: Store, reconciliation: string, kind: Kind): int {
    Sum(Of(s, Owed(kind)), TotalOf(reconciliation, kind)) - Sum(Of(s, Credited(kind)), TotalOf(reconciliation, kind))
  }
  function DocumentCount(s: Store, reconciliation: string, kind: Kind): int {
    Sum(Of(s, Owed(kind)), CountOf(reconciliation, kind)) + Sum(Of(s, Credited(kind)), CountOf(reconciliation, kind))
  }

  /** The balance in whole ten-thousandths, with its sign, when it is not skipped. */
  function SignedUnits(kind: Kind): Balance -> int {
    (b: Balance) =>
      if b.kind != kind || Negligible(b) then 0
      else if b.amount >= 0.0 then Round(10000.0 * b.amount) else -Round(10000.0 * -b.amount)
  }
  function Counted(kind: Kind): Balance -> int {
    (b: Balance) => if b.kind != kind || Negligible(b) then 0 else 1
  }

  lemma ClearedValid(s: Store, reconciliation: string)
    requires Valid(s)
    ensures Valid(Cleared(s, reconciliation))
  {
    hide UniqueKeys;
    forall t ensures UniqueKeys(Of(Cleared(s, reconciliation), t)) {
      ClearLive(Of(s, t), reconciliation, Key("", Receivable, ""));
      ClearedIs(s, reconciliation, t);
    }
  }

  lemma ClearedNotLive(s: Store, reconciliation: string, t: Table, key: Key)
    requires Valid(s) && key.reconciliation == reconciliation
    ensures Live(Of(Cleared(s, reconciliation), t), key).None?
  {
    hide UniqueKeys, Live;
    ClearLive(Of(s, t), reconciliation, key);
    ClearedIs(s, reconciliation, t);
  }

  lemma ClearedWeightless(s: Store, reconciliation: string, t: Table, f: Row -> int)
    requires OnLive(f) && forall r: Row :: !OfRun(r, reconciliation) ==> f(r) == 0
    ensures Sum(Of(Cleared(s, reconciliation), t), f) == 0
  {
    var rows := Of(Cleared(s, reconciliation), t);
    ClearedIs(s, reconciliation, t);
    forall r | r in rows ensures f(r) == 0 {
      var i :| 0 <= i < |rows| && rows[i] == r;
      assert r == Clear(reconciliation)(Of(s, t)[i]);
    }
    SumZero(rows, f);
  }

  lemma MaterializedSum(s: Store, run: Run, balances: seq<Balance>, t: Table, f: Row -> int)
    requires Valid(s) && Distinct(balances) && OnLive(f)
    requires forall r: Row :: !OfRun(r, run.reconciliation) ==> f(r) == 0
    ensures Sum(Of(Materialize(s, run, balances), t), f) == Sum(balances, Placed(run, t, f))
  {
    hide Live, Valid, Distinct, OnLive, Cleared, Place;
    var c := Cleared(s, run.reconciliation);
    ClearedValid(s, run.reconciliation);
    forall key: Key | key.reconciliation == run.reconciliation ensures Live(Of(c, t), key).None? {
      ClearedNotLive(s, run.reconciliation, t, key);
    }
    PlaceSum(c, run, balances, |balances|, t, f);
    assert balances[..|balances|] == balances;
    ClearedWeightless(s, run.reconciliation, t, f);
  }

  lemma PlacedWeights(run: Run, kind: Kind, b: Balance)
    ensures var f := CountOf(run.reconciliation, kind);
      Counted(kind)(b) == Placed(run, Owed(kind), f)(b) + Placed(run, Credited(kind), f)(b)
    ensures var f := TotalOf(run.reconciliation, kind);
      SignedUnits(kind)(b) == Placed(run, Owed(kind), f)(b) - Placed(run, Credited(kind), f)(b)
  {
    hide Round, Negligible;
    var r := RowFor(run, b);
    assert OfRun(r, run.reconciliation) && r.key.value.kind == b.kind && !r.deleted;
    var counts, totals := CountOf(run.reconciliation, kind), TotalOf(run.reconciliation, kind);
    assert counts(r) == (if b.kind == kind then 1 else 0) && totals(r) == if b.kind == kind then r.total else 0;
    assert r.total == Round(10000.0 * Magnitude(b.amount));
    assert TableFor(b.kind, b.amount) in {Owed(b.kind), Credited(b.kind)} && Owed(kind) != Credited(kind);
  }

  /** With distinct keys there is one live document for each balance that is not negligible. */
  lemma OneDocumentEach(s: Store, run: Run, balances: seq<Balance>, kind: Kind)
    requires Valid(s) && Distinct(balances)
    ensures DocumentCount(Materialize(s, run, balances), run.reconciliation, kind) == Sum(balances, Counted(kind))
  {
    hide Valid, Distinct, Materialize, Counted, Placed;
    var f := CountOf(run.reconciliation, kind);
    MaterializedSum(s, run, balances, Owed(kind), f);
    MaterializedSum(s, run, balances, Credited(kind), f);
    forall b | b in balances
      ensures Counted(kind)(b) == Placed(run, Owed(kind), f)(b) + Placed(run, Credited(kind), f)(b)
    {
      PlacedWeights(run, kind, b);
    }
    SumAdd(balances, Placed(run, Owed(kind), f), Placed(run, Credited(kind), f), Counted(kind));
  }

  /** And the signed total of the documents is the total of those balances, each as stored. */
  lemma TotalsAgree(s: Store, run: Run, balances: seq<Balance>, kind: Kind)
    requires Valid(s) && Distinct(balances)
    ensures SignedTotal(Materialize(s, run, balances), run.reconciliation, kind) == Sum(balances, SignedUnits(kind))
  {
    hide Valid, Distinct, Materialize, SignedUnits, Placed;
    var f := TotalOf(run.reconciliation, kind);
    var owed, credited := Placed(run, Owed(kind), f), Placed(run, Credited(kind), f);
    MaterializedSum(s, run, balances, Owed(kind), f);
    MaterializedSum(s, run, balances, Credited(kind), f);
    forall b | b in balances ensures owed(b) == SignedUnits(kind)(b) + credited(b) {
      PlacedWeights(run, kind, b);
    }
    SumAdd(balances, SignedUnits(kind), credited, owed);
  }

  function ExactUnits(kind: Kind): Balance -> real {
    (b: Balance) => if b.kind != kind || Negligible(b) then 0.0 else 10000.0 * b.amount
  }

  /** Storing rounds each balance, so n balances are kept to within n half ten-thousandths. */
  lemma TotalsNear(s: Store, run: Run, balances: seq<Balance>, kind: Kind)
    requires Valid(s) && Distinct(balances)
    ensures NearBy(SignedTotal(Materialize(s, run, balances), run.reconciliation, kind),
                   RealSum(balances, ExactUnits(kind)), |balances|)
  {
    hide Valid, Distinct, Materialize, SignedTotal;
    TotalsAgree(s, run, balances, kind);
    RoundedSum(balances, SignedUnits(kind), ExactUnits(kind));
  }

  // ---- The tables in place ----

  class OpeningDocuments {
    var invoices: seq<Row>
    var bills: seq<Row>
    var customerCredits: seq<Row>
    var vendorCredits: seq<Row>

    constructor ()
      ensures State() == Store([], [], [], [])
    {
      invoices, bills, customerCredits, vendorCredits := [], [], [], [];
    }

    function State(): Store
      reads this
    {
      Store(invoices, bills, customerCredits, vendorCredits)
    }

    method SoftDelete(reconciliation: string)
      modifies this
      ensures State() == Cleared(old(State()), reconciliation)
    {
      invoices := Map(invoices, Clear(reconciliation));
      bills := Map(bills, Clear(reconciliation));
      customerCredits := Map(customerCredits, Clear(reconciliation));
      vendorCredits := Map(vendorCredits, Clear(reconciliation));
    }

    /** Clears the reconciliation's documents, then revives or inserts one for each balance. */
    method MaterializeOpeningSubledgerBalances(run: Run, balances: seq<Balance>)
      modifies this
      ensures State() == Materialize(old(State()), run, balances)
    {
      hide Upsert, RowFor, Negligible;
      SoftDelete(run.reconciliation);
      ghost var cleared := State();
      for i := 0 to |balances|
        invariant State() == Place(cleared, run, balances[..i])
      {
        assert balances[..i + 1][..i] == balances[..i];
        var b := balances[i];
        if !Negligible(b) {
          var key, row := KeyFor(run, b), RowFor(run, b);
          match TableFor(b.kind, b.amount) {
            case Invoices => invoices := Upsert(invoices, key, row);
            case Bills => bills := Upsert(bills, key, row);
            case CustomerCredits => customerCredits := Upsert(customerCredits, key, row);
            case VendorCredits => vendorCredits := Upsert(vendorCredits, key, row);
          }
        }
      }
      assert balances[..|balances|] == balances;
    }
  }
}
