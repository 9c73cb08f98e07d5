/** The journals that keyed attempts leave: the posted one field by field, what is refused outright, and what a crash leaves. */
module KeyedRecords {
  import opened Wrappers
  import opened Sums
  import opened Money
  import opened Accounts
  import opened Ledger
  import opened Posting
  import opened Books
  import opened BookInvariants
  import opened KeyedJournals
  import opened ExactlyOnce
  import opened Refusals

  /** Opening lines with nothing above zero are left out. */
  function HasAmount(): Line -> bool { (l: Line) => !(l.debit <= 0 && l.credit <= 0) }

  function OneIfAmount(): Line -> int { (l: Line) => if l.debit <= 0 && l.credit <= 0 then 0 else 1 }
  function DebitIfAmount(): Line -> int { (l: Line) => if l.debit <= 0 && l.credit <= 0 then 0 else l.debit }
  function CreditIfAmount(): Line -> int { (l: Line) => if l.debit <= 0 && l.credit <= 0 then 0 else l.credit }

  /** The lines a request is to be posted with, as it gives them. */
  function LinesOf(r: Request): seq<Line> {
    match r
    case OpeningRequest(_, _, lines) => Filter(lines, HasAmount())
    case TransferRequest(_, from, to, amount) => [Line(to, amount, 0), Line(from, 0, amount)]
  }

  lemma {:induction false} SameFilter(lines: seq<Line>)
    ensures Filter(lines, NonZero()) == Filter(lines, HasAmount())
  {
    if lines != [] { SameFilter(lines[..|lines| - 1]); }
  }

  lemma WantedIs(r: Request)
    ensures Wanted(r).lines == LinesOf(r) && Wanted(r).date == r.date
    ensures Wanted(r).totalDebit == Sum(LinesOf(r), LineDebit()) && Wanted(r).totalCredit == Sum(LinesOf(r), LineCredit())
    ensures r.OpeningRequest? ==> Wanted(r).kind == Opening && Wanted(r).currency == r.currency
    ensures r.TransferRequest? ==> Wanted(r).kind == Standard && Wanted(r).currency == "SAR"
    ensures Wanted(r).source == None && Wanted(r).reversedBy == None && Wanted(r).status.Draft?
  {
    match r
    case OpeningRequest(_, _, lines) => SameFilter(lines);
    case TransferRequest(_, from, to, amount) =>
      SumOfTwo(Line(to, amount, 0), Line(from, 0, amount), LineDebit());
      SumOfTwo(Line(to, amount, 0), Line(from, 0, amount), LineCredit());
  }

  /** What a completed attempt says of its journal: a new one is built from the request, an earlier draft is rewritten. */
  ghost predicate JournalOf(j: Journal, prior: Option<Journal>, r: Request) {
    && j.status.Posted? && j.date == r.date && j.lines == LinesOf(r)
    && j.totalDebit == Sum(j.lines, LineDebit()) && j.totalCredit == Sum(j.lines, LineCredit())
    && (r.OpeningRequest? ==> j.kind == Opening && j.currency == r.currency)
    && match prior
       case None => j.source == None && j.reversedBy == None && (r.TransferRequest? ==> j.kind == Standard && j.currency == "SAR")
       case Some(before) =>
         && j.source == before.source && j.reversedBy == before.reversedBy
         && (r.TransferRequest? ==> j.kind == before.kind && j.currency == before.currency)
  }

  function PriorJournal(s: Keyed, key: string): Option<Journal> {
    if key in s.keys && s.keys[key] < |s.books.journals| then Some(s.books.journals[s.keys[key]]) else None
  }

  /** Besides its rows a completed attempt leaves the journal under its key, and nothing else. */
  lemma CompletedJournal(s: Keyed, key: string, r: Request, budget: nat)
    requires Once(s) && TryPost(s, key, r, budget).1.Completed?
    ensures var (t, outcome) := TryPost(s, key, r, budget);
      var (id, before) := (outcome.id, s.books.journals);
      && id == (if key in s.keys then s.keys[key] else |before|) && id < |t.books.journals|
      && t.keys == s.keys[key := id] && |t.books.journals| == (if key in s.keys then |before| else |before| + 1)
      && JournalOf(t.books.journals[id], PriorJournal(s, key), r)
      && (forall i :: 0 <= i < |before| && i != id ==> t.books.journals[i] == before[i])
      && t.books == s.books.(rows := t.books.rows, journals := t.books.journals)
  {
    hide BooksOnce, TryPost, CheckRequest, LinesAllowed, PostingRefusal, Wanted, LinesOf, JournalRows, Sum;
    CompletedIsUnrolled(s, key, r, budget);
    PreparedIs(s, key, r);
    PostingRange(Prepared(s, key, r).books, IdFor(s, key));
    WantedIs(r);
  }

  /** The requests refused before anything is read or written, and why. */
  lemma RefusedOutright(s: Keyed, key: string, r: Request, budget: nat)
    ensures r.OpeningRequest? ==>
      var few := Sum(r.lines, OneIfAmount()) < 2;
      var apart := Sum(r.lines, DebitIfAmount()) != Sum(r.lines, CreditIfAmount());
      && (few ==> TryPost(s, key, r, budget) == (s, Failed(TooFewLines)))
      && (!few && apart ==> TryPost(s, key, r, budget) == (s, Failed(Unbalanced)))
      && (CheckRequest(r).None? <==> !few && !apart)
    ensures r.TransferRequest? ==>
      && (r.from == r.to ==> TryPost(s, key, r, budget) == (s, Failed(InvalidLine)))
      && (r.from != r.to && r.amount <= 0 ==> TryPost(s, key, r, budget) == (s, Failed(ZeroAmount)))
      && (CheckRequest(r).None? <==> r.from != r.to && r.amount > 0)
  {
    hide Execute, Wanted, Sum;
    WantedIs(r);
    if r.OpeningRequest? {
      var kept := Filter(r.lines, HasAmount());
      SumFilter(r.lines, HasAmount(), OneIfAmount());
      SumFilter(r.lines, HasAmount(), DebitIfAmount());
      SumFilter(r.lines, HasAmount(), CreditIfAmount());
      SumSame(kept, LineDebit(), DebitIfAmount());
      SumSame(kept, LineCredit(), CreditIfAmount());
      CountOnes(kept);
    }
  }

  /**
   An attempt that is not refused outright, whose key has posted nothing, and that survives
   its four writes completes exactly when its lines are accepted on its date, balance exactly
   and are entries, whatever an earlier attempt left behind.
   */
  lemma CompletesWhen(s: Keyed, key: string, r: Request, budget: nat)
    requires Once(s) && DistinctIds(s.books.chart) && CheckRequest(r).None? && !PostedUnder(s, key) && budget >= 4
    ensures var x := OfLines(r.date, LinesOf(r));
      TryPost(s, key, r, budget).1.Completed? <==> Acceptable(s.books, x) && x.debit == x.credit && Entries(LinesOf(r))
  {
    hide BooksOnce, TryPost, CheckRequest, Wanted, LinesOf, Acceptable, ValidateContext, Sum;
    CompletesIff(s, key, r, budget);
    WantedIs(r);
    ContextIff(s.books, r.date, LinesOf(r));
    if Acceptable(s.books, OfLines(r.date, LinesOf(r))) {
      AcceptedPositive(s.books, OfLines(r.date, LinesOf(r)));
      EntriesAllowed(s.books, r, LinesOf(r));
    }
  }

  lemma AcceptedPositive(b: Books, x: Proposal)
    requires Acceptable(b, x)
    ensures x.debit > 0
  {
  }

  lemma EntriesAllowed(b: Books, r: Request, lines: seq<Line>)
    requires DistinctIds(b.chart) && Acceptable(b, OfLines(r.date, lines))
    ensures (forall l :: l in lines ==> LineAllowed(l)) && Insertable(b.chart, lines) <==> Entries(lines)
  {
    hide Acceptable, Sum;
    if forall l :: l in lines ==> LineAllowed(l) { EntriesIff(b, NewDraft(Opening, r.date, "", lines, None)); }
  }

  lemma {:induction false} CountOnes(lines: seq<Line>)
    requires forall l :: l in lines ==> HasAmount()(l)
    ensures Sum(lines, OneIfAmount()) == |lines|
  {
    if lines != [] {
      assert lines[|lines| - 1] in lines;
      CountOnes(lines[..|lines| - 1]);
    }
  }

  /**
   An attempt on an earlier draft that dies after its first write: an opening has lost its
   lines and keeps its old header, a transfer has its new header over its old lines.
   */
  lemma CrashAfterOneWrite(s: Keyed, key: string, r: Request)
    requires Once(s) && key in s.keys && !PostedUnder(s, key) && CheckRequest(r).None? && LinesAllowed(r)
    ensures var (t, outcome) := TryPost(s, key, r, 1);
      var (id, before) := (s.keys[key], s.books.journals[s.keys[key]]);
      && outcome.Crashed? && id < |t.books.journals|
      && t.books == s.books.(journals := s.books.journals[id := t.books.journals[id]]) && t.keys == s.keys
      && t.books.journals[id] ==
           (if r.OpeningRequest? then before.(lines := [])
            else before.(date := r.date, totalDebit := Sum(LinesOf(r), LineDebit()), totalCredit := Sum(LinesOf(r), LineCredit())))
  {
    hide BooksOnce, CheckRequest, LinesAllowed, Wanted, LinesOf, Execute, Sum;
    var writes := Writes(r, true);
    AllowedTotals(r);
    WantedIs(r);
    ExecuteFirst(s, key, s.keys[key], r, writes, 1);
    OutOfBudget(Perform(s, key, s.keys[key], r, writes[0]).0, key, s.keys[key], r, writes[1..]);
  }

  lemma OutOfBudget(s: Keyed, key: string, id: nat, r: Request, writes: seq<Write>)
    requires writes != []
    ensures Execute(s, key, id, r, writes, 0) == (s, Crashed)
  {
  }
}
