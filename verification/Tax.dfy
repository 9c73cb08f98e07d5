/** The tax lines of a document, component by component. */
module Tax {
  import opened Wrappers
  import opened Sums
  import opened Money
  import opened Posting
  import opened Ledger

  datatype Component = Component(amount: int, withholding: bool, reverseCharge: bool)

  datatype TaxAccounts = TaxAccounts(payable: Option<string>, receivable: Option<string>, withholding: Option<string>)

  datatype MissingTaxAccount = NoWithholding | NoReceivable | NoPayable

  function DebitTax(account: string, amount: int): PostingLine { PostingLine(account, amount, 0, None, None) }
  function CreditTax(account: string, amount: int): PostingLine { PostingLine(account, 0, amount, None, None) }

  /** Withholding goes first; a reverse charge is both owed and reclaimed. */
  function ComponentLines(c: Component, sales: bool, accounts: TaxAccounts): Result<seq<PostingLine>, MissingTaxAccount> {
    if c.amount <= 0 then Ok([])
    else if c.withholding then
      if accounts.withholding.None? then Err(NoWithholding)
      else Ok([if sales then CreditTax(accounts.withholding.value, c.amount) else DebitTax(accounts.withholding.value, c.amount)])
    else if c.reverseCharge then
      if accounts.receivable.None? then Err(NoReceivable)
      else if accounts.payable.None? then Err(NoPayable)
      else Ok([DebitTax(accounts.receivable.value, c.amount), CreditTax(accounts.payable.value, c.amount)])
    else if sales then
      if accounts.payable.None? then Err(NoPayable) else Ok([CreditTax(accounts.payable.value, c.amount)])
    else
      if accounts.receivable.None? then Err(NoReceivable) else Ok([DebitTax(accounts.receivable.value, c.amount)])
  }

  /** The first account that is missing stops it. */
  function TaxLines(components: seq<Component>, sales: bool, accounts: TaxAccounts): Result<seq<PostingLine>, MissingTaxAccount> {
    if components == [] then Ok([])
    else
      var before := TaxLines(components[..|components| - 1], sales, accounts);
      var more := ComponentLines(components[|components| - 1], sales, accounts);
      if before.Err? then before else if more.Err? then more else Ok(before.value + more.value)
  }

  method BuildTaxJournalLines(components: seq<Component>, sales: bool, accounts: TaxAccounts)
    returns (lines: Result<seq<PostingLine>, MissingTaxAccount>)
    ensures lines == TaxLines(components, sales, accounts)
  {
    hide ComponentLines;
    var built := [];
    for i := 0 to |components|
      invariant TaxLines(components[..i], sales, accounts) == Ok(built)
    {
      assert components[..i + 1][..i] == components[..i];
      var more := ComponentLines(components[i], sales, accounts);
      if more.Err? {
        TaxStops(components, sales, accounts, i + 1);
        return more;
      }
      built := built + more.value;
    }
    assert components[..|components|] == components;
    lines := Ok(built);
  }

  lemma {:induction false} TaxStops(components: seq<Component>, sales: bool, accounts: TaxAccounts, i: nat)
    requires i <= |components| && TaxLines(components[..i], sales, accounts).Err?
    ensures TaxLines(components, sales, accounts) == TaxLines(components[..i], sales, accounts)
    decreases |components| - i
  {
    hide ComponentLines;
    if i < |components| {
      assert components[..i + 1][..i] == components[..i];
      TaxStops(components, sales, accounts, i + 1);
    } else {
      assert components[..i] == components;
    }
  }

  // ---- What the lines move ----

  function Charged(): Component -> int { (c: Component) => if c.amount > 0 && !c.withholding && !c.reverseCharge then c.amount else 0 }
  function ReverseCharged(): Component -> int { (c: Component) => if c.amount > 0 && !c.withholding && c.reverseCharge then c.amount else 0 }
  function Withheld(): Component -> int { (c: Component) => if c.amount > 0 && c.withholding then c.amount else 0 }

  /** What components move an account by, as payable, receivable and withholding account. */
  function Moved(components: seq<Component>, sales: bool, accounts: TaxAccounts, account: string): int {
    var (charged, reversed, withheld) :=
      (Sum(components, Charged()), Sum(components, ReverseCharged()), Sum(components, Withheld()));
    - OnIf(accounts.payable == Some(account), reversed + if sales then charged else 0)
    + OnIf(accounts.receivable == Some(account), reversed + if sales then 0 else charged)
    + OnIf(accounts.withholding == Some(account), if sales then -withheld else withheld)
  }

  lemma ComponentMoves(c: Component, sales: bool, accounts: TaxAccounts, account: string)
    requires ComponentLines(c, sales, accounts).Ok?
    ensures Sum(ComponentLines(c, sales, accounts).value, NetOn(account)) == Moved([c], sales, accounts, account)
    ensures forall l :: l in ComponentLines(c, sales, accounts).value ==> OneSided(l.debit, l.credit)
  {
    var lines := ComponentLines(c, sales, accounts).value;
    SumOfOne(c, Charged());
    SumOfOne(c, ReverseCharged());
    SumOfOne(c, Withheld());
    if |lines| == 1 {
      SumOfOne(lines[0], NetOn(account));
      assert lines == [lines[0]];
    } else if |lines| == 2 {
      SumOfTwo(lines[0], lines[1], NetOn(account));
      assert lines == [lines[0], lines[1]];
    }
  }

  lemma MovedStep(init: seq<Component>, c: Component, sales: bool, accounts: TaxAccounts, account: string)
    ensures Moved(init + [c], sales, accounts, account)
         == Moved(init, sales, accounts, account) + Moved([c], sales, accounts, account)
  {
    SumAppend(init, [c], Charged());
    SumAppend(init, [c], ReverseCharged());
    SumAppend(init, [c], Withheld());
  }

  /**
   Each tax account moves by its own components: tax charged is owed on sales and reclaimed
   on purchases, a reverse charge is both, and tax withheld is on its own account. Every
   line has one positive side.
   */
  lemma {:induction false} TaxMoves(components: seq<Component>, sales: bool, accounts: TaxAccounts, account: string)
    requires TaxLines(components, sales, accounts).Ok?
    ensures Sum(TaxLines(components, sales, accounts).value, NetOn(account)) == Moved(components, sales, accounts, account)
    ensures forall l :: l in TaxLines(components, sales, accounts).value ==> OneSided(l.debit, l.credit)
  {
    hide ComponentLines, Moved;
    if components == [] {
      NothingMoves(sales, accounts, account);
    } else {
      var init, last := components[..|components| - 1], components[|components| - 1];
      assert components == init + [last];
      TaxMoves(init, sales, accounts, account);
      ComponentMoves(last, sales, accounts, account);
      MovedStep(init, last, sales, accounts, account);
      SumAppend(TaxLines(init, sales, accounts).value, ComponentLines(last, sales, accounts).value, NetOn(account));
    }
  }

  /** The account a positive component needs is missing. */
  predicate Lacks(c: Component, sales: bool, accounts: TaxAccounts, missing: MissingTaxAccount) {
    c.amount > 0 && match missing
      case NoWithholding => c.withholding && accounts.withholding.None?
      case NoReceivable => !c.withholding && (c.reverseCharge || !sales) && accounts.receivable.None?
      case NoPayable => !c.withholding && (c.reverseCharge || sales) && accounts.payable.None?
  }

  /** The account that stops a component: the receivable side of a reverse charge is looked for first. */
  predicate Stops(c: Component, sales: bool, accounts: TaxAccounts, missing: MissingTaxAccount) {
    Lacks(c, sales, accounts, missing) && (missing == NoPayable ==> !Lacks(c, sales, accounts, NoReceivable))
  }

  /** The lines are built exactly when every component finds its accounts; otherwise the error is that of the first that does not. */
  lemma {:induction false} TaxBuiltIff(components: seq<Component>, sales: bool, accounts: TaxAccounts)
    ensures var lines := TaxLines(components, sales, accounts);
      && (lines.Ok? <==> forall c, missing :: c in components ==> !Lacks(c, sales, accounts, missing))
      && (lines.Err? ==> exists k ::
            && 0 <= k < |components| && Stops(components[k], sales, accounts, lines.error)
            && TaxLines(components[..k], sales, accounts).Ok?)
  {
    hide ComponentLines, Lacks, Stops;
    if components != [] {
      var init, last := components[..|components| - 1], components[|components| - 1];
      assert components == init + [last];
      TaxBuiltIff(init, sales, accounts);
      ComponentBuiltIff(last, sales, accounts);
      assert components[..|init|] == init;
      forall k | 0 <= k < |init| ensures components[k] == init[k] && components[..k] == init[..k] {}
    }
  }

  lemma ComponentBuiltIff(c: Component, sales: bool, accounts: TaxAccounts)
    ensures var lines := ComponentLines(c, sales, accounts);
      && (lines.Ok? <==> forall missing :: !Lacks(c, sales, accounts, missing))
      && (lines.Err? ==> Stops(c, sales, accounts, lines.error))
  {
    assert ComponentLines(c, sales, accounts).Err? ==> Lacks(c, sales, accounts, ComponentLines(c, sales, accounts).error);
  }

  lemma NothingMoves(sales: bool, accounts: TaxAccounts, account: string)
    ensures Moved([], sales, accounts, account) == 0
  {
  }

  /** The one component of bills, receipts and credits: its line is the document's tax, on the side of the document. */
  lemma SingleTax(tax: int, sales: bool, accounts: TaxAccounts)
    requires tax > 0 && TaxLines([Component(tax, false, false)], sales, accounts).Ok?
    ensures Sum(TaxLines([Component(tax, false, false)], sales, accounts).value, NetOf()) == if sales then -tax else tax
  {
    var one := [Component(tax, false, false)];
    assert one[..0] == [] && TaxLines(one[..0], sales, accounts) == Ok([]);
    var lines := ComponentLines(one[0], sales, accounts).value;
    assert TaxLines(one, sales, accounts).value == [] + lines && [] + lines == lines && lines == [lines[0]];
    SumOfOne(lines[0], NetOf());
  }
}
