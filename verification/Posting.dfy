/** Turning the lines of a source document into ledger rows. */
module Posting {
  import opened Wrappers
  import opened Sums
  import opened Money
  import opened Accounts
  import opened Ledger

  datatype Refusal =
    | Unbalanced | ZeroAmount | PeriodClosed | AccountNotFound | AccountInactive
    | Duplicate | NotFound | NotPosted | AlreadyPosted | AlreadyReversed | AlreadyClosed
    | InvalidLine | ConstraintViolated | NoRetainedEarnings | MissingAccount | TooFewLines | Changed

  /** Missing sides are zero; `rate` overrides the looked-up exchange rate. */
  datatype PostingLine = PostingLine(account: string, debit: int, credit: int, costCenter: Option<string>, rate: Option<real>)

  function ToLine(): PostingLine -> Line { (l: PostingLine) => Line(l.account, l.debit, l.credit) }

  /** The journal-line view of posting lines that validation looks at. */
  function Plain(lines: seq<PostingLine>): seq<Line> { Map(lines, ToLine()) }

  function ValidateBalanced(lines: seq<Line>): (r: Option<Refusal>)
    ensures r.None? <==> Abs(Sum(lines, LineNet())) <= CENT && Sum(lines, LineDebit()) > 0
  {
    var debit, credit := Sum(lines, LineDebit()), Sum(lines, LineCredit());
    SumAdd(lines, LineNet(), LineCredit(), LineDebit());
    if Abs(debit - credit) > CENT then Some(Unbalanced)
    else if debit <= 0 then Some(ZeroAmount)
    else None
  }

  // ---- Grouping by account and direction ----

  datatype Key = Key(account: string, side: Side)

  function KeyOf(l: PostingLine): Key { Key(l.account, if l.debit > 0 then Debit else Credit) }

  predicate Kept(l: PostingLine) { l.debit > 0 || l.credit > 0 }

  /** The position of the group with this key, or |grouped| when there is none. */
  function IndexOf(grouped: seq<PostingLine>, key: Key): (k: nat)
    ensures k <= |grouped|
    ensures k < |grouped| ==> KeyOf(grouped[k]) == key
    ensures k == |grouped| ==> forall i :: 0 <= i < |grouped| ==> KeyOf(grouped[i]) != key
  {
    if grouped == [] then 0
    else
      var init := grouped[..|grouped| - 1];
      var k := IndexOf(init, key);
      if k < |init| then k
      else if KeyOf(grouped[|grouped| - 1]) == key then |init| else |grouped|
  }

  function Merge(prior: PostingLine, l: PostingLine): PostingLine {
    prior.(debit := prior.debit + l.debit, credit := prior.credit + l.credit,
           costCenter := if prior.costCenter != l.costCenter then None else prior.costCenter)
  }

  function Absorb(grouped: seq<PostingLine>, l: PostingLine): seq<PostingLine> {
    if !Kept(l) then grouped
    else
      var k := IndexOf(grouped, KeyOf(l));
      if k < |grouped| then grouped[k := Merge(grouped[k], l)] else grouped + [l]
  }

  function Group(lines: seq<PostingLine>): seq<PostingLine> {
    if lines == [] then [] else Absorb(Group(lines[..|lines| - 1]), lines[|lines| - 1])
  }

  lemma GroupPrefixStep(lines: seq<PostingLine>, i: nat)
    requires i < |lines|
    ensures Group(lines[..i + 1]) == Absorb(Group(lines[..i]), lines[i])
  {
    assert lines[..i + 1][..i] == lines[..i];
  }

  /** The insertion-ordered map of the posting service, filled line by line. */
  method GroupLines(lines: seq<PostingLine>) returns (grouped: seq<PostingLine>)
    ensures grouped == Group(lines)
  {
    grouped := [];
    for i := 0 to |lines|
      invariant grouped == Group(lines[..i])
    {
      GroupPrefixStep(lines, i);
      var line := lines[i];
      if line.debit > 0 || line.credit > 0 {
        var k := IndexOf(grouped, KeyOf(line));
        if k < |grouped| {
          grouped := grouped[k := Merge(grouped[k], line)];
        } else {
          grouped := grouped + [line];
        }
      }
    }
    assert lines[..|lines|] == lines;
  }

  /** Two lines that differ in account or side are two groups. */
  lemma GroupOfTwo(lines: seq<PostingLine>)
    requires |lines| == 2 && Kept(lines[0]) && Kept(lines[1]) && KeyOf(lines[0]) != KeyOf(lines[1])
    ensures Group(lines) == lines
  {
    assert lines[..1] == [lines[0]] && lines[..1][..0] == [];
    assert Group(lines[..1]) == [lines[0]];
  }

  ghost predicate DistinctKeys(grouped: seq<PostingLine>) {
    forall i, j :: 0 <= i < j < |grouped| ==> KeyOf(grouped[i]) != KeyOf(grouped[j])
  }

  ghost predicate HasKey(lines: seq<PostingLine>, key: Key) {
    exists i :: 0 <= i < |lines| && Kept(lines[i]) && KeyOf(lines[i]) == key
  }

  lemma AbsorbKeys(grouped: seq<PostingLine>, l: PostingLine)
    requires DistinctKeys(grouped) && forall g :: g in grouped ==> Kept(g)
    ensures DistinctKeys(Absorb(grouped, l)) && forall g :: g in Absorb(grouped, l) ==> Kept(g)
    ensures forall key :: HasKey(Absorb(grouped, l), key) <==> HasKey(grouped, key) || (Kept(l) && KeyOf(l) == key)
  {
    if Kept(l) {
      var k := IndexOf(grouped, KeyOf(l));
      var after := Absorb(grouped, l);
      forall i | 0 <= i < |grouped|
        ensures Kept(after[i]) && KeyOf(after[i]) == KeyOf(grouped[i])
      {
        assert grouped[i] in grouped;
      }
      forall key ensures HasKey(after, key) <==> HasKey(grouped, key) || KeyOf(l) == key {
        if HasKey(grouped, key) {
          var i :| 0 <= i < |grouped| && Kept(grouped[i]) && KeyOf(grouped[i]) == key;
          assert KeyOf(after[i]) == key;
        }
        assert KeyOf(after[k]) == KeyOf(l) && Kept(after[k]);
        if HasKey(after, key) && key != KeyOf(l) {
          var i :| 0 <= i < |after| && Kept(after[i]) && KeyOf(after[i]) == key;
          assert i < |grouped| && grouped[i] in grouped;
        }
      }
    }
  }

  /** Groups have distinct keys, and exactly the keys of the lines with a positive side. */
  lemma {:induction false} GroupKeys(lines: seq<PostingLine>)
    ensures DistinctKeys(Group(lines))
    ensures forall g :: g in Group(lines) ==> Kept(g)
    ensures forall key :: HasKey(Group(lines), key) <==> HasKey(lines, key)
  {
    if lines != [] {
      var init, last := lines[..|lines| - 1], lines[|lines| - 1];
      GroupKeys(init);
      AbsorbKeys(Group(init), last);
      forall key ensures HasKey(lines, key) <==> HasKey(init, key) || (Kept(last) && KeyOf(last) == key) {
        HasKeyStep(lines, key);
      }
    }
  }

  lemma HasKeyStep(lines: seq<PostingLine>, key: Key)
    requires lines != []
    ensures var last := lines[|lines| - 1];
      HasKey(lines, key) <==> HasKey(lines[..|lines| - 1], key) || (Kept(last) && KeyOf(last) == key)
  {
    var init := lines[..|lines| - 1];
    if HasKey(lines, key) {
      var i :| 0 <= i < |lines| && Kept(lines[i]) && KeyOf(lines[i]) == key;
      if i < |init| { assert init[i] == lines[i]; }
    }
    if HasKey(init, key) {
      var i :| 0 <= i < |init| && Kept(init[i]) && KeyOf(init[i]) == key;
      assert lines[i] == init[i];
    }
  }

  /** An account gets at most one debit row and one credit row. */
  lemma AtMostTwoRowsPerAccount(lines: seq<PostingLine>, i: nat, j: nat, k: nat)
    requires i < j < k < |Group(lines)|
    ensures !(Group(lines)[i].account == Group(lines)[j].account == Group(lines)[k].account)
  {
    GroupKeys(lines);
    var g := Group(lines);
    assert KeyOf(g[i]) != KeyOf(g[j]) && KeyOf(g[j]) != KeyOf(g[k]) && KeyOf(g[i]) != KeyOf(g[k]);
  }

  ghost predicate SharesCostCenter(lines: seq<PostingLine>, key: Key, c: string) {
    forall i :: 0 <= i < |lines| && Kept(lines[i]) && KeyOf(lines[i]) == key ==> lines[i].costCenter == Some(c)
  }

  ghost predicate FirstOf(lines: seq<PostingLine>, key: Key, rate: Option<real>) {
    exists i :: 0 <= i < |lines| && Kept(lines[i]) && KeyOf(lines[i]) == key && lines[i].rate == rate
      && forall j :: 0 <= j < i && Kept(lines[j]) ==> KeyOf(lines[j]) != key
  }

  ghost predicate Traits(lines: seq<PostingLine>, g: PostingLine, c: string) {
    (g.costCenter == Some(c) <==> SharesCostCenter(lines, KeyOf(g), c)) && FirstOf(lines, KeyOf(g), g.rate)
  }

  /**
   A group has a cost centre exactly when all its lines have that one, and is
   converted at the rate of the first of them.
   */
  lemma {:induction false} GroupTraits(lines: seq<PostingLine>, g: PostingLine, c: string)
    requires g in Group(lines)
    ensures g.costCenter == Some(c) <==> SharesCostCenter(lines, KeyOf(g), c)
    ensures FirstOf(lines, KeyOf(g), g.rate)
  {
    hide SharesCostCenter, FirstOf, KeyOf, Kept, Merge;
    if lines != [] {
      var init, last := lines[..|lines| - 1], lines[|lines| - 1];
      assert lines == init + [last];
      var prior := Group(init);
      var i :| 0 <= i < |Group(lines)| && Group(lines)[i] == g;
      if i < |prior| {
        GroupTraits(init, prior[i], c);
        MergedTraits(init, last, prior[i], c);
        OtherTraits(init, last, prior[i], c);
        MergeKey(prior[i], last);
        IndexOfFirst(init, i);
      } else {
        NewTraits(init, last, c);
      }
    }
  }

  /** Each group is found at its own position. */
  lemma IndexOfFirst(init: seq<PostingLine>, i: nat)
    requires i < |Group(init)|
    ensures IndexOf(Group(init), KeyOf(Group(init)[i])) == i
  {
    GroupKeys(init);
  }

  lemma MergeKey(p: PostingLine, l: PostingLine)
    ensures KeyOf(p) == KeyOf(l) ==> KeyOf(Merge(p, l)) == KeyOf(p)
  {
  }

  lemma MergedTraits(init: seq<PostingLine>, last: PostingLine, p: PostingLine, c: string)
    requires Traits(init, p, c)
    ensures Kept(last) && KeyOf(p) == KeyOf(last) && KeyOf(Merge(p, last)) == KeyOf(p)
      ==> Traits(init + [last], Merge(p, last), c)
  {
    hide SharesCostCenter, FirstOf;
    TraitsStep(init, last, KeyOf(p), p.rate, c);
  }

  lemma OtherTraits(init: seq<PostingLine>, last: PostingLine, p: PostingLine, c: string)
    requires Traits(init, p, c)
    ensures !Kept(last) || KeyOf(p) != KeyOf(last) ==> Traits(init + [last], p, c)
  {
    hide SharesCostCenter, FirstOf;
    TraitsStep(init, last, KeyOf(p), p.rate, c);
  }

  lemma NewTraits(init: seq<PostingLine>, last: PostingLine, c: string)
    requires Kept(last) && IndexOf(Group(init), KeyOf(last)) == |Group(init)|
    ensures Traits(init + [last], last, c)
  {
    NoneBefore(init, KeyOf(last));
    var lines := init + [last];
    assert forall i :: 0 <= i < |init| ==> lines[i] == init[i];
    assert lines[|init|] == last;
  }

  lemma TraitsStep(init: seq<PostingLine>, last: PostingLine, key: Key, rate: Option<real>, c: string)
    ensures SharesCostCenter(init + [last], key, c)
      <==> SharesCostCenter(init, key, c) && (Kept(last) && KeyOf(last) == key ==> last.costCenter == Some(c))
    ensures FirstOf(init, key, rate) ==> FirstOf(init + [last], key, rate)
  {
    var lines := init + [last];
    assert forall i :: 0 <= i < |init| ==> lines[i] == init[i];
    assert lines[|init|] == last;
    if FirstOf(init, key, rate) {
      var i :| 0 <= i < |init| && Kept(init[i]) && KeyOf(init[i]) == key && init[i].rate == rate
        && forall j :: 0 <= j < i && Kept(init[j]) ==> KeyOf(init[j]) != key;
      assert Kept(lines[i]) && KeyOf(lines[i]) == key && lines[i].rate == rate;
    }
  }

  lemma NoneBefore(init: seq<PostingLine>, key: Key)
    requires IndexOf(Group(init), key) == |Group(init)|
    ensures forall i :: 0 <= i < |init| && Kept(init[i]) ==> KeyOf(init[i]) != key
  {
    GroupKeys(init);
    assert !HasKey(Group(init), key);
  }

  /** A weight that merging adds up, on lines that grouping keeps. */
  ghost predicate Additive(f: PostingLine -> int) {
    forall p, l :: KeyOf(p) == KeyOf(l) ==> f(Merge(p, l)) == f(p) + f(l)
  }

  lemma SumUpdate(xs: seq<PostingLine>, k: nat, y: PostingLine, f: PostingLine -> int)
    requires k < |xs|
    ensures Sum(xs[k := y], f) == Sum(xs, f) - f(xs[k]) + f(y)
  {
    assert xs == (xs[..k] + [xs[k]]) + xs[k + 1..];
    assert xs[k := y] == (xs[..k] + [y]) + xs[k + 1..];
    SumAppend(xs[..k] + [xs[k]], xs[k + 1..], f);
    SumAppend(xs[..k] + [y], xs[k + 1..], f);
    SumStep(xs[..k], xs[k], f);
    SumStep(xs[..k], y, f);
  }

  /** A weight on the lines that grouping keeps, and nothing on the rest. */
  function KeptOnly(f: PostingLine -> int): PostingLine -> int {
    (l: PostingLine) => if Kept(l) then f(l) else 0
  }

  /** For any lines at all: grouping adds up what the kept lines weigh. */
  lemma {:induction false} GroupKeepsSum(lines: seq<PostingLine>, f: PostingLine -> int)
    requires Additive(f)
    ensures Sum(Group(lines), f) == Sum(lines, KeptOnly(f))
  {
    if lines != [] {
      var init, last := lines[..|lines| - 1], lines[|lines| - 1];
      GroupKeepsSum(init, f);
      var prior := Group(init);
      if Kept(last) {
        var k := IndexOf(prior, KeyOf(last));
        if k < |prior| {
          SumUpdate(prior, k, Merge(prior[k], last), f);
        } else {
          SumStep(prior, last, f);
        }
      }
    }
  }

  lemma GroupKeepsWhole(lines: seq<PostingLine>, f: PostingLine -> int)
    requires Additive(f) && forall l :: l in lines && !Kept(l) ==> f(l) == 0
    ensures Sum(Group(lines), f) == Sum(lines, f)
  {
    GroupKeepsSum(lines, f);
    SumSame(lines, KeptOnly(f), f);
  }

  function DebitOn(account: string): PostingLine -> int {
    (l: PostingLine) => if l.account == account then l.debit else 0
  }
  function CreditOn(account: string): PostingLine -> int {
    (l: PostingLine) => if l.account == account then l.credit else 0
  }
  function NetOn(account: string): PostingLine -> int {
    (l: PostingLine) => if l.account == account then l.debit - l.credit else 0
  }
  function DebitOf(): PostingLine -> int { (l: PostingLine) => l.debit }
  function NetOf(): PostingLine -> int { (l: PostingLine) => l.debit - l.credit }

  predicate NonNegative(l: PostingLine) { l.debit >= 0 && l.credit >= 0 }

  ghost predicate AllNonNegative(lines: seq<PostingLine>) {
    forall l :: l in lines ==> NonNegative(l)
  }

  /** Grouping keeps every account's debit total, credit total and the overall imbalance. */
  lemma GroupKeepsTotals(lines: seq<PostingLine>, account: string)
    requires AllNonNegative(lines)
    ensures Sum(Group(lines), DebitOn(account)) == Sum(lines, DebitOn(account))
    ensures Sum(Group(lines), CreditOn(account)) == Sum(lines, CreditOn(account))
    ensures Sum(Group(lines), NetOn(account)) == Sum(lines, NetOn(account))
    ensures Sum(Group(lines), NetOf()) == Sum(lines, NetOf())
  {
    GroupKeepsWhole(lines, DebitOn(account));
    GroupKeepsWhole(lines, CreditOn(account));
    GroupKeepsWhole(lines, NetOn(account));
    GroupKeepsWhole(lines, NetOf());
  }

  /** Validation reads the lines before the non-positive ones are dropped. */
  function DroppedNet(): PostingLine -> int {
    (l: PostingLine) => if Kept(l) then 0 else l.debit - l.credit
  }

  /** What the grouped rows are out of balance by, for any lines at all. */
  lemma GroupImbalance(lines: seq<PostingLine>)
    ensures Sum(Group(lines), NetOf()) == Sum(lines, NetOf()) - Sum(lines, DroppedNet())
  {
    SumAdd(lines, KeptOnly(NetOf()), DroppedNet(), NetOf());
    GroupKeepsSum(lines, NetOf());
  }

  lemma PlainNet(lines: seq<PostingLine>)
    ensures Sum(Plain(lines), LineNet()) == Sum(lines, NetOf())
  {
    SumMap(lines, ToLine(), LineNet(), NetOf());
  }

  lemma PlainDebit(lines: seq<PostingLine>)
    ensures Sum(Plain(lines), LineDebit()) == Sum(lines, DebitOf())
  {
    SumMap(lines, ToLine(), LineDebit(), DebitOf());
  }

  // ---- Base-currency amounts ----

  /** The override wins over the looked-up rate, and a zero rate counts as one. */
  function EffectiveRate(override: Option<real>, lookup: real): real {
    var rate := if override.Some? then override.value else lookup;
    if rate == 0.0 then 1.0 else rate
  }

  function BaseAmounts(l: PostingLine, lookup: real): Base {
    var rate := EffectiveRate(l.rate, lookup);
    Base.Base(Convert(l.debit, rate), Convert(l.credit, rate), rate)
  }

  datatype Document = Document(kind: string, id: string, date: int, currency: string, lookup: real, lines: seq<PostingLine>)

  function RowOf(doc: Document): PostingLine -> Row {
    (l: PostingLine) =>
      Row(l.account, doc.date, l.debit, l.credit, doc.currency, BaseAmounts(l, doc.lookup), FromDocument(doc.kind, doc.id))
  }

  /** The rows a document adds to the ledger. */
  function DocumentRows(doc: Document): seq<Row> { Map(Group(doc.lines), RowOf(doc)) }

  method BuildRows(doc: Document) returns (rows: seq<Row>)
    ensures rows == DocumentRows(doc)
  {
    var grouped := GroupLines(doc.lines);
    rows := [];
    for i := 0 to |grouped|
      invariant rows == Map(grouped[..i], RowOf(doc))
    {
      var line := grouped[i];
      var rate := if line.rate.Some? then line.rate.value else doc.lookup;
      if rate == 0.0 { rate := 1.0; }
      var base := Base.Base(Convert(line.debit, rate), Convert(line.credit, rate), rate);
      rows := rows + [Row(line.account, doc.date, line.debit, line.credit, doc.currency, base, FromDocument(doc.kind, doc.id))];
      assert grouped[..i + 1][..i] == grouped[..i];
    }
    assert grouped[..|grouped|] == grouped;
  }

  function BaseNet(lookup: real): PostingLine -> int {
    (l: PostingLine) => BaseAmounts(l, lookup).debit - BaseAmounts(l, lookup).credit
  }

  predicate OneSided(debit: int, credit: int) {
    (debit > 0 && credit == 0) || (credit > 0 && debit == 0)
  }

  lemma LineBase(debit: int, credit: int, rate: real)
    requires OneSided(debit, credit)
    ensures -0.5 <= (Convert(debit, rate) - Convert(credit, rate)) as real - (debit - credit) as real * rate <= 0.5
  {
    ConvertZero(rate);
    if credit == 0 {
      assert (debit - credit) as real == debit as real;
    } else {
      assert (debit - credit) as real == -(credit as real);
      assert (-(credit as real)) * rate == -(credit as real * rate);
    }
  }

  function ExactNet(rate: real): PostingLine -> real {
    (l: PostingLine) => (l.debit - l.credit) as real * rate
  }

  lemma LineBaseNet(l: PostingLine, lookup: real, rate: real)
    requires OneSided(l.debit, l.credit) && EffectiveRate(l.rate, lookup) == rate
    ensures -0.5 <= BaseNet(lookup)(l) as real - ExactNet(rate)(l) <= 0.5
  {
    LineBase(l.debit, l.credit, rate);
  }

  /** Each one-sided line is converted to within half a unit, so n lines are to within n/2. */
  lemma BaseImbalance(lines: seq<PostingLine>, lookup: real, rate: real)
    requires forall l :: l in lines ==> OneSided(l.debit, l.credit) && EffectiveRate(l.rate, lookup) == rate
    ensures NearBy(Sum(lines, BaseNet(lookup)), Exact(Sum(lines, NetOf()), rate), |lines|)
  {
    hide Exact, OneSided, EffectiveRate;
    RoundedBase(lines, lookup, rate);
    ExactIsScaled(lines, rate);
  }

  lemma RoundedBase(lines: seq<PostingLine>, lookup: real, rate: real)
    requires forall l :: l in lines ==> OneSided(l.debit, l.credit) && EffectiveRate(l.rate, lookup) == rate
    ensures NearBy(Sum(lines, BaseNet(lookup)), RealSum(lines, ExactNet(rate)), |lines|)
  {
    forall l | l in lines ensures -0.5 <= BaseNet(lookup)(l) as real - ExactNet(rate)(l) <= 0.5 {
      LineBaseNet(l, lookup, rate);
    }
    RoundedSum(lines, BaseNet(lookup), ExactNet(rate));
  }

  lemma ExactIsScaled(lines: seq<PostingLine>, rate: real)
    ensures RealSum(lines, ExactNet(rate)) == Exact(Sum(lines, NetOf()), rate)
  {
    ScaledSum(lines, NetOf(), ExactNet(rate), rate);
  }

  /**
   The base imbalance of a posted document: at one rate it is the rate times
   the transaction imbalance, to within half a unit for each row.
   */
  lemma DocumentBaseImbalance(doc: Document, rate: real)
    requires forall g :: g in Group(doc.lines) ==> OneSided(g.debit, g.credit) && EffectiveRate(g.rate, doc.lookup) == rate
    ensures NearBy(Sum(DocumentRows(doc), RowBaseNet()), Exact(Sum(Group(doc.lines), NetOf()), rate), |DocumentRows(doc)|)
  {
    hide Group, DocumentRows, OneSided, EffectiveRate, Exact;
    BaseImbalance(Group(doc.lines), doc.lookup, rate);
    BaseNetOfRows(doc);
  }

  lemma BaseNetOfRows(doc: Document)
    ensures Sum(DocumentRows(doc), RowBaseNet()) == Sum(Group(doc.lines), BaseNet(doc.lookup))
    ensures |DocumentRows(doc)| == |Group(doc.lines)|
  {
    SumMap(Group(doc.lines), RowOf(doc), RowBaseNet(), BaseNet(doc.lookup));
  }

  function RowBaseNet(): Row -> int {
    (r: Row) => if r.base.Base? then r.base.debit - r.base.credit else 0
  }
  function RowBaseNetOn(account: string): Row -> int {
    (r: Row) => if r.account == account && r.base.Base? then r.base.debit - r.base.credit else 0
  }

  // ---- Mirrored documents ----

  function Swap(): PostingLine -> PostingLine {
    (l: PostingLine) => l.(debit := l.credit, credit := l.debit)
  }

  function Mirror(lines: seq<PostingLine>): seq<PostingLine> { Map(lines, Swap()) }

  ghost predicate NeverBoth(lines: seq<PostingLine>) {
    forall l :: l in lines ==> !(l.debit > 0 && l.credit > 0)
  }

  lemma MapStep<T, U>(xs: seq<T>, x: T, f: T -> U)
    ensures Map(xs + [x], f) == Map(xs, f) + [f(x)]
  {
    assert (xs + [x])[..|xs + [x]| - 1] == xs;
  }

  lemma {:induction false} GroupNeverBoth(lines: seq<PostingLine>)
    requires NeverBoth(lines)
    ensures NeverBoth(Group(lines))
  {
    if lines != [] {
      var init, last := lines[..|lines| - 1], lines[|lines| - 1];
      assert lines == init + [last];
      GroupNeverBoth(init);
      GroupKeys(init);
    }
  }

  /** Lines with one positive side and nothing on the other give rows of that kind. */
  lemma {:induction false} GroupOneSided(lines: seq<PostingLine>)
    requires forall l :: l in lines && Kept(l) ==> OneSided(l.debit, l.credit)
    ensures forall g :: g in Group(lines) ==> OneSided(g.debit, g.credit)
  {
    if lines != [] {
      var init, last := lines[..|lines| - 1], lines[|lines| - 1];
      assert lines == init + [last];
      GroupOneSided(init);
    }
  }

  lemma IndexOfMirror(grouped: seq<PostingLine>, l: PostingLine)
    requires DistinctKeys(grouped) && NeverBoth(grouped + [l])
    requires Kept(l) && forall g :: g in grouped ==> Kept(g)
    ensures IndexOf(Mirror(grouped), KeyOf(Swap()(l))) == IndexOf(grouped, KeyOf(l))
  {
    var m, k := Mirror(grouped), IndexOf(grouped, KeyOf(l));
    var km := IndexOf(m, KeyOf(Swap()(l)));
    forall i | 0 <= i < |grouped|
      ensures KeyOf(m[i]) == KeyOf(Swap()(l)) <==> KeyOf(grouped[i]) == KeyOf(l)
    {
      assert grouped[i] in grouped + [l] && l in grouped + [l] && grouped[i] in grouped;
    }
  }

  /** Swapping every line's sides swaps every group's sides. */
  lemma {:induction false} GroupMirror(lines: seq<PostingLine>)
    requires NeverBoth(lines)
    ensures Group(Mirror(lines)) == Mirror(Group(lines))
  {
    if lines != [] {
      var init, last := lines[..|lines| - 1], lines[|lines| - 1];
      assert lines == init + [last];
      GroupMirror(init);
      GroupKeys(init);
      GroupNeverBoth(init);
      MapStep(init, last, Swap());
      assert Mirror(lines)[..|lines| - 1] == Mirror(init);
      AbsorbMirror(Group(init), last);
    }
  }

  lemma AbsorbMirror(prior: seq<PostingLine>, l: PostingLine)
    requires DistinctKeys(prior) && NeverBoth(prior + [l]) && forall g :: g in prior ==> Kept(g)
    ensures Absorb(Mirror(prior), Swap()(l)) == Mirror(Absorb(prior, l))
  {
    hide IndexOf, KeyOf, Merge, DistinctKeys;
    if Kept(l) {
      IndexOfMirror(prior, l);
      var k := IndexOf(prior, KeyOf(l));
      if k < |prior| {
        MergeMirror(prior[k], l);
        assert Mirror(prior)[k := Swap()(Merge(prior[k], l))] == Mirror(prior[k := Merge(prior[k], l)]);
      } else {
        MapStep(prior, l, Swap());
      }
    }
  }

  lemma MergeMirror(p: PostingLine, l: PostingLine)
    ensures Merge(Swap()(p), Swap()(l)) == Swap()(Merge(p, l))
  {
  }

  lemma MirrorNet(grouped: seq<PostingLine>, account: string)
    ensures Sum(Mirror(grouped), NetOn(account)) == -Sum(grouped, NetOn(account))
  {
    SumMap(grouped, Swap(), NetOn(account), MinusNetOn(account));
    SumOpposite(grouped, MinusNetOn(account), NetOn(account));
  }

  lemma MirrorBaseNet(grouped: seq<PostingLine>, account: string, lookup: real)
    ensures Sum(Mirror(grouped), BaseNetOn(account, lookup)) == -Sum(grouped, BaseNetOn(account, lookup))
  {
    SumMap(grouped, Swap(), BaseNetOn(account, lookup), MinusBaseNetOn(account, lookup));
    SumOpposite(grouped, MinusBaseNetOn(account, lookup), BaseNetOn(account, lookup));
  }

  lemma DocumentMovement(doc: Document, account: string, w: Window)
    ensures Movement(DocumentRows(doc), account, w)
         == if Within(w, doc.date) then Sum(Group(doc.lines), NetOn(account)) else 0
  {
    if Within(w, doc.date) {
      SumMap(Group(doc.lines), RowOf(doc), RowNetOn(account, w), NetOn(account));
    } else {
      MovementOfOneDate(DocumentRows(doc), account, w, doc.date);
    }
  }

  lemma DocumentBaseMovement(doc: Document, account: string)
    ensures Sum(DocumentRows(doc), RowBaseNetOn(account)) == Sum(Group(doc.lines), BaseNetOn(account, doc.lookup))
  {
    SumMap(Group(doc.lines), RowOf(doc), RowBaseNetOn(account), BaseNetOn(account, doc.lookup));
  }

  lemma {:induction false} GroupRates(lines: seq<PostingLine>)
    requires forall l :: l in lines ==> l.rate.None?
    ensures forall g :: g in Group(lines) ==> g.rate.None?
  {
    if lines != [] {
      var init, last := lines[..|lines| - 1], lines[|lines| - 1];
      assert lines == init + [last];
      GroupRates(init);
    }
  }

  /** Posted in the base currency itself, a document's base amounts are its amounts. */
  lemma BaseMovementAtOne(doc: Document, account: string)
    requires doc.lookup == 1.0 && AllNonNegative(doc.lines) && forall l :: l in doc.lines ==> l.rate.None?
    ensures Sum(DocumentRows(doc), RowBaseNetOn(account)) == Sum(doc.lines, NetOn(account))
  {
    hide Group;
    GroupRates(doc.lines);
    DocumentBaseMovement(doc, account);
    forall g | g in Group(doc.lines) ensures BaseNetOn(account, 1.0)(g) == NetOn(account)(g) {
      ConvertAtOne(g.debit);
      ConvertAtOne(g.credit);
    }
    SumSame(Group(doc.lines), BaseNetOn(account, 1.0), NetOn(account));
    GroupKeepsTotals(doc.lines, account);
  }

  /**
   Two documents whose lines are mirror images, posted at the same looked-up
   rate, cancel on every account in transaction and in base currency.
   */
  lemma MirroredDocumentsCancel(doc: Document, mirror: Document, account: string, w: Window)
    requires NeverBoth(doc.lines) && mirror.lines == Mirror(doc.lines) && mirror.lookup == doc.lookup
    requires Within(w, doc.date) && Within(w, mirror.date)
    ensures Movement(DocumentRows(doc) + DocumentRows(mirror), account, w) == 0
    ensures Sum(DocumentRows(doc) + DocumentRows(mirror), RowBaseNetOn(account)) == 0
  {
    GroupMirror(doc.lines);
    MovementAppend(DocumentRows(doc), DocumentRows(mirror), account, w);
    SumAppend(DocumentRows(doc), DocumentRows(mirror), RowBaseNetOn(account));
    DocumentMovement(doc, account, w);
    DocumentMovement(mirror, account, w);
    DocumentBaseMovement(doc, account);
    DocumentBaseMovement(mirror, account);
    MirrorNet(Group(doc.lines), account);
    MirrorBaseNet(Group(doc.lines), account, doc.lookup);
  }

  function BaseNetOn(account: string, lookup: real): PostingLine -> int {
    (l: PostingLine) =>
      if l.account == account then BaseAmounts(l, lookup).debit - BaseAmounts(l, lookup).credit else 0
  }
  function MinusNetOn(account: string): PostingLine -> int {
    (l: PostingLine) => if l.account == account then l.credit - l.debit else 0
  }
  function MinusBaseNetOn(account: string, lookup: real): PostingLine -> int {
    (l: PostingLine) =>
      if l.account == account then BaseAmounts(l, lookup).credit - BaseAmounts(l, lookup).debit else 0
  }

  // ---- The rate of each row ----

  /** The rate a line asks for: its own, the looked-up one where it has none, and one where that is zero. */
  predicate AsksFor(l: PostingLine, lookup: real, rate: real) {
    match l.rate
    case Some(own) => rate == own || (own == 0.0 && rate == 1.0)
    case None => rate == lookup || (lookup == 0.0 && rate == 1.0)
  }

  /** The first line of a row's account and side. */
  ghost predicate Begins(lines: seq<PostingLine>, k: nat, row: Row) {
    && k < |lines| && Kept(lines[k]) && lines[k].account == row.account && (lines[k].debit > 0 <==> row.debit > 0)
    && forall j :: 0 <= j < k && Kept(lines[j]) && lines[j].account == row.account ==> !(lines[j].debit > 0 <==> row.debit > 0)
  }

  /**
   Every row has the currency and date of its document, and is converted, each side to
   within half a unit, at the rate of the first of its lines: the line's own rate before
   the looked-up one.
   */
  lemma RowIsConverted(doc: Document, row: Row)
    requires row in DocumentRows(doc)
    ensures row.date == doc.date && row.currency == doc.currency && row.origin == FromDocument(doc.kind, doc.id)
    ensures row.base.Base? && row.base.rate != 0.0
    ensures NearBy(row.base.debit, Exact(row.debit, row.base.rate), 1) && NearBy(row.base.credit, Exact(row.credit, row.base.rate), 1)
    ensures exists k: nat :: Begins(doc.lines, k, row) && AsksFor(doc.lines[k], doc.lookup, row.base.rate)
  {
    hide Group, Convert;
    var i :| 0 <= i < |DocumentRows(doc)| && DocumentRows(doc)[i] == row;
    var g := Group(doc.lines)[i];
    assert g in Group(doc.lines);
    GroupTraits(doc.lines, g, "");
    var k :| 0 <= k < |doc.lines| && Kept(doc.lines[k]) && KeyOf(doc.lines[k]) == KeyOf(g) && doc.lines[k].rate == g.rate
      && forall j :: 0 <= j < k && Kept(doc.lines[j]) ==> KeyOf(doc.lines[j]) != KeyOf(g);
    assert Begins(doc.lines, k, row);
  }

  function RowOn(account: string): Row -> bool { (r: Row) => r.account == account }

  function NetOfRow(): Row -> int { (r: Row) => r.debit - r.credit }
  function ExactOfRow(rate: real): Row -> real { (r: Row) => (r.debit - r.credit) as real * rate }

  lemma RowAtRate(doc: Document, rate: real, row: Row)
    requires forall l :: l in doc.lines && Kept(l) ==>
      OneSided(l.debit, l.credit) && (l.rate == Some(rate) || (l.rate == None && doc.lookup == rate))
    requires rate != 0.0 && row in DocumentRows(doc)
    ensures row.base.Base? && row.base.rate == rate && OneSided(row.debit, row.credit)
    ensures -0.5 <= RowBaseNetOn(row.account)(row) as real - ExactOfRow(rate)(row) <= 0.5
  {
    hide Group, DocumentRows, Convert, Exact;
    RowIsConverted(doc, row);
    var k: nat :| Begins(doc.lines, k, row) && AsksFor(doc.lines[k], doc.lookup, row.base.rate);
    assert doc.lines[k] in doc.lines;
    GroupOneSided(doc.lines);
    RowGroup(doc, row);
    LineBase(row.debit, row.credit, rate);
    assert RowBaseNetOn(row.account)(row) == Convert(row.debit, rate) - Convert(row.credit, rate);
    assert ExactOfRow(rate)(row) == (row.debit - row.credit) as real * rate;
  }

  lemma RowGroup(doc: Document, row: Row)
    requires row in DocumentRows(doc)
    ensures exists g :: g in Group(doc.lines) && g.debit == row.debit && g.credit == row.credit
    ensures row.base.Base? ==> row.base.debit == Convert(row.debit, row.base.rate) && row.base.credit == Convert(row.credit, row.base.rate)
  {
    hide Group, Convert;
    var i :| 0 <= i < |DocumentRows(doc)| && DocumentRows(doc)[i] == row;
    assert Group(doc.lines)[i] in Group(doc.lines);
  }

  /**
   When every line asks for one rate, by its own or, having none, by the looked-up one,
   each account moves in base by that rate times what its lines come to: to within half a
   unit for each of its rows, so that it is never out by more than one.
   */
  lemma MovesAtRate(doc: Document, rate: real, account: string)
    requires forall l :: l in doc.lines && Kept(l) ==>
      OneSided(l.debit, l.credit) && (l.rate == Some(rate) || (l.rate == None && doc.lookup == rate))
    requires rate != 0.0
    ensures NearBy(Sum(DocumentRows(doc), RowBaseNetOn(account)), Exact(Sum(doc.lines, KeptOnly(NetOn(account))), rate),
                   |Filter(DocumentRows(doc), RowOn(account))|)
    ensures |Filter(DocumentRows(doc), RowOn(account))| <= 2
    ensures forall row :: row in DocumentRows(doc) ==> row.base.Base? && row.base.rate == rate
  {
    hide DocumentRows, Group, Filter, Sum, Exact, NearBy;
    var rows, own := DocumentRows(doc), Filter(DocumentRows(doc), RowOn(account));
    forall r | r in own
      ensures -0.5 <= RowBaseNetOn(account)(r) as real - ExactOfRow(rate)(r) <= 0.5
    {
      RowAtRate(doc, rate, r);
    }
    RoundedSum(own, RowBaseNetOn(account), ExactOfRow(rate));
    ScaledSum(own, NetOfRow(), ExactOfRow(rate), rate);
    SumFilter(rows, RowOn(account), RowBaseNetOn(account));
    OwnNet(doc, account);
    TwoRowsAtMost(doc, account);
    forall row | row in rows ensures row.base.Base? && row.base.rate == rate { RowAtRate(doc, rate, row); }
  }

  lemma RowOfLast(doc: Document, grouped: seq<PostingLine>, account: string)
    requires grouped != []
    ensures |Filter(Map(grouped, RowOf(doc)), RowOn(account))|
         == |Filter(Map(grouped[..|grouped| - 1], RowOf(doc)), RowOn(account))|
            + if grouped[|grouped| - 1].account == account then 1 else 0
  {
    hide BaseAmounts;
    var rows := Map(grouped, RowOf(doc));
    assert rows[..|rows| - 1] == Map(grouped[..|grouped| - 1], RowOf(doc));
    assert rows[|rows| - 1].account == grouped[|grouped| - 1].account;
  }

  lemma KeyOfLast(grouped: seq<PostingLine>, key: Key)
    requires grouped != []
    ensures IndexOf(grouped, key) < |grouped|
       <==> IndexOf(grouped[..|grouped| - 1], key) < |grouped| - 1 || KeyOf(grouped[|grouped| - 1]) == key
  {
  }

  lemma {:induction false} RowsOfKeys(doc: Document, grouped: seq<PostingLine>, account: string)
    requires DistinctKeys(grouped)
    ensures |Filter(Map(grouped, RowOf(doc)), RowOn(account))|
         <= (if IndexOf(grouped, Key(account, Debit)) < |grouped| then 1 else 0)
            + (if IndexOf(grouped, Key(account, Credit)) < |grouped| then 1 else 0)
  {
    hide Filter, Map, RowOf, IndexOf;
    if grouped == [] {
      NoRows(doc, account);
    } else {
      var init, last := grouped[..|grouped| - 1], grouped[|grouped| - 1];
      RowsOfKeys(doc, init, account);
      RowOfLast(doc, grouped, account);
      KeyOfLast(grouped, Key(account, Debit));
      KeyOfLast(grouped, Key(account, Credit));
      if last.account == account { assert IndexOf(init, KeyOf(last)) == |init|; }
    }
  }

  lemma NoRows(doc: Document, account: string)
    ensures Filter(Map([], RowOf(doc)), RowOn(account)) == []
  {
  }

  lemma TwoRowsAtMost(doc: Document, account: string)
    ensures |Filter(DocumentRows(doc), RowOn(account))| <= 2
  {
    hide Group;
    GroupKeys(doc.lines);
    RowsOfKeys(doc, Group(doc.lines), account);
  }

  function RowNetHere(account: string): Row -> int { (r: Row) => if r.account == account then r.debit - r.credit else 0 }

  lemma OwnNet(doc: Document, account: string)
    ensures Sum(Filter(DocumentRows(doc), RowOn(account)), NetOfRow()) == Sum(doc.lines, KeptOnly(NetOn(account)))
  {
    hide Group, Filter, Sum;
    var rows := DocumentRows(doc);
    SumSame(Filter(rows, RowOn(account)), NetOfRow(), RowNetHere(account));
    SumFilter(rows, RowOn(account), RowNetHere(account));
    SumMap(Group(doc.lines), RowOf(doc), RowNetHere(account), NetOn(account));
    GroupKeepsSum(doc.lines, NetOn(account));
  }

  /** A document with debits has a row. */
  lemma SomeRow(doc: Document)
    requires Sum(doc.lines, DebitOf()) > 0
    ensures DocumentRows(doc) != []
  {
    hide BaseAmounts, Group;
    if forall l :: l in doc.lines ==> !Kept(l) {
      SumNonNegative(doc.lines, MinusDebit());
      SumOpposite(doc.lines, MinusDebit(), DebitOf());
    } else {
      var l :| l in doc.lines && Kept(l);
      var i :| 0 <= i < |doc.lines| && doc.lines[i] == l;
      assert HasKey(doc.lines, KeyOf(l));
      GroupKeys(doc.lines);
      assert HasKey(Group(doc.lines), KeyOf(l));
    }
  }

  function MinusDebit(): PostingLine -> int { (l: PostingLine) => -l.debit }
}
