/**
 The unique index over ledger rows: no two rows share origin, account, debit, credit
 and date. It holds over every run, and it is what refuses a journal with two equal lines.
 */
module LedgerIndex {
  import opened Wrappers
  import opened Sums
  import opened Money
  import opened Accounts
  import opened Ledger
  import opened Posting
  import opened Books
  import opened BookInvariants
  import opened KeyedJournals
  import opened ExactlyOnce
  import opened Shop

  predicate Alike(r: Row, q: Row) {
    r.origin == q.origin && r.account == q.account && r.debit == q.debit && r.credit == q.credit && r.date == q.date
  }

  ghost predicate Indexed(rows: seq<Row>) {
    forall i, j :: 0 <= i < j < |rows| ==> !Alike(rows[i], rows[j])
  }

  /** Rows of an origin the ledger does not know yet can only clash among themselves. */
  lemma AppendIndexed(rows: seq<Row>, more: seq<Row>, origin: Origin)
    requires Indexed(rows) && Indexed(more) && !HasOrigin(rows, origin)
    requires forall r :: r in more ==> r.origin == origin
    ensures Indexed(rows + more)
  {
    forall i, j | 0 <= i < j < |rows + more| ensures !Alike((rows + more)[i], (rows + more)[j]) {
      if j >= |rows| {
        assert more[j - |rows|] in more;
        if i < |rows| { assert rows[i] in rows; }
      }
    }
  }

  // ---- What it refuses and what it does not ----

  /** Of a journal's rows it refuses some exactly when two of its lines are equal. */
  lemma JournalRowsIndexedIff(id: nat, j: Journal)
    ensures Indexed(JournalRows(id, j)) <==> Distinct(j.lines)
  {
    var rows := JournalRows(id, j);
    forall i, k | 0 <= i < k < |j.lines| ensures Alike(rows[i], rows[k]) <==> j.lines[i] == j.lines[k] {
    }
  }

  /** Grouped rows never clash: an account has one debit row and one credit row, of different sides. */
  lemma DocumentRowsIndexed(doc: Document)
    requires forall r :: r in DocumentRows(doc) ==> RowAllowed(r)
    ensures Indexed(DocumentRows(doc))
  {
    hide Group;
    var rows := DocumentRows(doc);
    GroupKeys(doc.lines);
    forall i, j | 0 <= i < j < |rows| ensures !Alike(rows[i], rows[j]) {
      assert KeyOf(Group(doc.lines)[i]) != KeyOf(Group(doc.lines)[j]);
      assert Group(doc.lines)[i] in Group(doc.lines) && Group(doc.lines)[j] in Group(doc.lines);
    }
  }

  /** Nor do the two lines of a transfer journal. */
  lemma TransferLinesDistinct(r: Request)
    requires r.TransferRequest? && CheckRequest(r).None?
    ensures Distinct(Wanted(r).lines)
  {
  }

  // ---- Over every run ----

  lemma DocumentKeepsIndex(s: Books, doc: Document)
    requires Indexed(s.rows)
    ensures Indexed(PostDocument(s, doc).0.rows)
  {
    hide ValidateContext, Indexed, RowAllowed;
    if PostDocument(s, doc).0 != s {
      DocumentRowsIndexed(doc);
      AppendIndexed(s.rows, DocumentRows(doc), FromDocument(doc.kind, doc.id));
    }
  }

  lemma PostKeepsIndex(s: Books, id: nat)
    requires Indexed(s.rows)
    ensures Indexed(PostJournal(s, id).0.rows)
  {
    hide ValidateContext, Indexed, Distinct, LinePostable;
    if PostingRefusal(s, id).None? {
      JournalRowsIndexedIff(id, s.journals[id]);
      AppendIndexed(s.rows, JournalRows(id, s.journals[id]), FromJournal(id));
    }
  }

  lemma DraftAndPostKeepsIndex(s: Books, draft: Journal)
    requires Indexed(s.rows)
    ensures Indexed(DraftAndPost(s, draft).0.rows)
  {
    hide Indexed, PostJournal;
    PostKeepsIndex(CreateDraft(s, draft).0, |s.journals|);
  }

  lemma CloseKeepsIndex(s: Books, p: nat, currency: string)
    requires Indexed(s.rows)
    ensures Indexed(CloseYear(s, p, currency).0.rows)
  {
    hide Indexed, PostJournal, PeriodBalances, ClosingLines, NetIncome, OpeningLines;
    if CloseRefusal(s, p).None? {
      var period, retained := s.periods[p], FindRetained(s.chart).value.id;
      var draft := NewDraft(Closing, period.end, currency, ClosingLines(PeriodBalances(s, period), retained), None);
      PostKeepsIndex(CreateDraft(s, draft).0, |s.journals|);
    }
  }

  lemma ApplyKeepsIndex(s: Books, step: Step)
    requires Indexed(s.rows)
    ensures Indexed(Apply(s, step).rows)
  {
    hide Indexed, PostDocument, PostJournal, DraftAndPost, CloseYear, ValidateContext;
    match step
    case DocumentStep(doc) => DocumentKeepsIndex(s, doc);
    case PostStep(id) => PostKeepsIndex(s, id);
    case ReverseStep(id, date) =>
      if id < |s.journals| {
        var source := s.journals[id];
        DraftAndPostKeepsIndex(s, NewDraft(Reversing, date, source.currency, Swapped(source.lines), Some(id)));
      }
    case AdjustStep(id, date, lines, autoPost) =>
      if id < |s.journals| {
        DraftAndPostKeepsIndex(s, NewDraft(Adjusting, date, s.journals[id].currency, lines, Some(id)));
      }
    case CloseStep(p, currency) => CloseKeepsIndex(s, p, currency);
    case _ =>
  }

  lemma {:induction false} ExecuteKeepsIndex(s: Keyed, key: string, id: nat, r: Request, writes: seq<Write>, budget: nat)
    requires Indexed(s.books.rows)
    ensures Indexed(Execute(s, key, id, r, writes, budget).0.books.rows)
    decreases |writes|
  {
    hide Indexed, PostJournal, Wanted, Rewritten;
    if writes != [] {
      PostKeepsIndex(s.books, id);
      ExecuteKeepsIndex(Perform(s, key, id, r, writes[0]).0, key, id, r, writes[1..], if budget > 0 then budget - 1 else 0);
    }
  }

  lemma TakeKeepsIndex(s: Keyed, step: KeyedStep)
    requires Indexed(s.books.rows)
    ensures Indexed(Take(s, step).books.rows)
  {
    hide Indexed, Apply, Execute, CheckRequest;
    match step
    case Other(other) => ApplyKeepsIndex(s.books, other);
    case Try(key, r, budget) =>
      var drafted := key in s.keys;
      ExecuteKeepsIndex(s, key, if drafted then s.keys[key] else |s.books.journals|, r, Writes(r, drafted), budget);
  }

  /** Whatever runs, crashes included, the ledger meets the index: it refuses nothing that the model accepts. */
  lemma {:induction false} RunKeepsIndex(s: Keyed, steps: seq<KeyedStep>)
    requires Indexed(s.books.rows)
    ensures Indexed(TakeAll(s, steps).books.rows)
  {
    hide Indexed, Take;
    if steps != [] {
      RunKeepsIndex(s, steps[..|steps| - 1]);
      TakeKeepsIndex(TakeAll(s, steps[..|steps| - 1]), steps[|steps| - 1]);
    }
  }

  // ---- An opening balance that repeats a line ----

  /** A request with two equal lines is never posted, however often it is tried and whatever runs in between. */
  lemma RepeatedLineNeverPosts(s: Keyed, steps: seq<KeyedStep>, key: string, r: Request, budget: nat)
    requires Once(s) && !Distinct(Wanted(r).lines)
    ensures var t := TakeAll(s, steps);
      !TryPost(t, key, r, budget).1.Completed? && TryPost(t, key, r, budget).0.books.rows == t.books.rows
  {
    hide Once, TryPost, Wanted, Distinct, CheckRequest, Prepared, PreparedJournal, LinesAllowed;
    var t := TakeAll(s, steps);
    RunPostsOnce(s, steps);
    TryOnce(t, key, r, budget);
    if TryPost(t, key, r, budget).1.Completed? {
      CompletedIsUnrolled(t, key, r, budget);
      if key in t.keys { OnceKeys(t, key); }
      PreparedIs(t, key, r);
      InsertableLines(Prepared(t, key, r).books, IdFor(t, key));
    }
  }

  lemma OnceKeys(s: Keyed, key: string)
    requires Once(s) && key in s.keys
    ensures s.keys[key] < |s.books.journals|
  {
  }

  lemma InsertableLines(b: Books, id: nat)
    requires PostingRefusal(b, id).None?
    ensures id < |b.journals| && Distinct(b.journals[id].lines)
  {
  }

  const EMPTY_SHOP := Keyed(Books(Chart(false), [], [], [], []), map[])

  /** The bank's opening balance given in two equal halves, and the same balance in one line. */
  function Halved(date: int, amount: int): Request {
    OpeningRequest(date, "SAR", [Line("bank", amount, 0), Line("bank", amount, 0), Line("retained", 0, 2 * amount)])
  }
  function Whole(date: int, amount: int): Request {
    OpeningRequest(date, "SAR", [Line("bank", 2 * amount, 0), Line("retained", 0, 2 * amount)])
  }

  lemma OpeningIsWanted(date: int, amount: int)
    requires amount > 0
    ensures Wanted(Halved(date, amount)) == NewDraft(Opening, date, "SAR", Halved(date, amount).lines, None)
    ensures Wanted(Whole(date, amount)) == NewDraft(Opening, date, "SAR", Whole(date, amount).lines, None)
    ensures Wanted(Halved(date, amount)).totalDebit == Wanted(Halved(date, amount)).totalCredit == 2 * amount
    ensures Wanted(Whole(date, amount)).totalDebit == Wanted(Whole(date, amount)).totalCredit == 2 * amount
    ensures CheckRequest(Halved(date, amount)).None? && CheckRequest(Whole(date, amount)).None?
  {
    hide Filter, Sum;
    var halved, whole := Halved(date, amount).lines, Whole(date, amount).lines;
    FilterAll(halved, NonZero());
    FilterAll(whole, NonZero());
    SumOfThree(halved[0], halved[1], halved[2], LineDebit());
    SumOfThree(halved[0], halved[1], halved[2], LineCredit());
    SumOfTwo(whole[0], whole[1], LineDebit());
    SumOfTwo(whole[0], whole[1], LineCredit());
  }

  lemma OpeningContext(date: int, lines: seq<Line>)
    requires Sum(lines, LineDebit()) == Sum(lines, LineCredit()) > 0
    requires forall l :: l in lines ==> l.account == "bank" || l.account == "retained"
    ensures ValidateContext(EMPTY_SHOP.books, date, lines).None?
    ensures forall l :: l in lines ==> Usable(Chart(false), l.account)
  {
    hide Find;
    ChartIsOk(false);
    assert BANK in Chart(false) && RETAINED in Chart(false);
    SumAdd(lines, LineNet(), LineCredit(), LineDebit());
  }

  /** Both openings meet every other rule; only the index tells them apart. */
  lemma OnlyTheIndex(date: int, amount: int)
    requires amount > 0
    ensures Postable(EMPTY_SHOP.books, Whole(date, amount))
    ensures !Distinct(Wanted(Halved(date, amount)).lines)
    ensures var (b, want) := (EMPTY_SHOP.books, Wanted(Halved(date, amount)));
      && LinesAllowed(Halved(date, amount)) && ValidateContext(b, date, want.lines).None?
      && (forall l :: l in want.lines ==> LinePostable(b.chart, l))
  {
    hide ValidateContext, Usable, Wanted, Sum;
    OpeningIsWanted(date, amount);
    OpeningContext(date, Wanted(Halved(date, amount)).lines);
    OpeningContext(date, Wanted(Whole(date, amount)).lines);
    var lines := Halved(date, amount).lines;
    assert lines[0] == lines[1];
  }

  /**
   The failing input: a balanced opening that names one account twice with the same
   amount. Its first attempt leaves the draft and no ledger row, no later attempt posts
   it whatever runs in between, and the same balance in one line would have posted.
   */
  lemma HalvedOpeningIsRefused(date: int, amount: int, budget: nat, steps: seq<KeyedStep>, retries: nat)
    requires amount > 0 && budget >= 4
    ensures var r := Halved(date, amount);
      var (t, outcome) := TryPost(EMPTY_SHOP, "opening", r, budget);
      var u := TakeAll(t, steps);
      && outcome == Failed(InvalidLine) && t.books.journals == [Wanted(r)] && t.books.rows == []
      && !TryPost(u, "opening", r, retries).1.Completed? && TryPost(u, "opening", r, retries).0.books.rows == u.books.rows
    ensures TryPost(EMPTY_SHOP, "opening", Whole(date, amount), budget).1.Completed?
  {
    hide Once, TryPost, Wanted, CheckRequest, Postable, ValidateContext, LinesAllowed, LinePostable, Distinct;
    var r := Halved(date, amount);
    EmptyOnce();
    OpeningIsWanted(date, amount);
    OnlyTheIndex(date, amount);
    CompletesIff(EMPTY_SHOP, "opening", Whole(date, amount), budget);
    AttemptUnrolled(EMPTY_SHOP, "opening", r, budget);
    SameContext(EMPTY_SHOP.books, Prepared(EMPTY_SHOP, "opening", r).books, date, Wanted(r).lines);
    assert PostingRefusal(Prepared(EMPTY_SHOP, "opening", r).books, 0) == Some(InvalidLine);
    TryOnce(EMPTY_SHOP, "opening", r, budget);
    RepeatedLineNeverPosts(TryPost(EMPTY_SHOP, "opening", r, budget).0, steps, "opening", r, retries);
  }

  lemma EmptyOnce()
    ensures Once(EMPTY_SHOP)
  {
  }
}
