/**
 Journals posted at most once under an external key: opening balances and
 non-bank transfers. An attempt is a list of separate writes and may stop
 before any of them; a later attempt under the same key picks up what is there.
 */
module KeyedJournals {
  import opened Wrappers
  import opened Sums
  import opened Money
  import opened Accounts
  import opened Ledger
  import opened Posting
  import opened Books

  /** The books, and the journal that carries each key. */
  datatype Keyed = Keyed(books: Books, keys: map<string, nat>)

  datatype Request =
    | OpeningRequest(date: int, currency: string, lines: seq<Line>)
    | TransferRequest(date: int, from: string, to: string, amount: int)

  datatype Attempt = Completed(id: nat) | Unchanged(id: nat) | Failed(why: Refusal) | Crashed

  function NonZero(): Line -> bool { (l: Line) => l.debit > 0 || l.credit > 0 }

  /** The journal an attempt wants to post. */
  function Wanted(r: Request): Journal {
    match r
    case OpeningRequest(date, currency, lines) => NewDraft(Opening, date, currency, Filter(lines, NonZero()), None)
    case TransferRequest(date, from, to, amount) =>
      Journal(Standard, date, "SAR", [Line(to, amount, 0), Line(from, 0, amount)], amount, amount, Draft, None, None)
  }

  function CheckRequest(r: Request): Option<Refusal> {
    match r
    case OpeningRequest(_, _, _) =>
      if |Wanted(r).lines| < 2 then Some(TooFewLines)
      else if Wanted(r).totalDebit != Wanted(r).totalCredit then Some(Unbalanced)
      else None
    case TransferRequest(_, from, to, amount) =>
      if from == to then Some(InvalidLine) else if amount <= 0 then Some(ZeroAmount) else None
  }

  // ---- The separate writes ----

  datatype Write = InsertHeader | UpdateHeader | DeleteLines | InsertLines | PostEntry

  /** An opening clears the old lines before it rewrites the header; a transfer does it the other way round. */
  function Writes(r: Request, drafted: bool): seq<Write> {
    if !drafted then [InsertHeader, InsertLines, PostEntry]
    else if r.OpeningRequest? then [DeleteLines, UpdateHeader, InsertLines, PostEntry]
    else [UpdateHeader, DeleteLines, InsertLines, PostEntry]
  }

  function Rewritten(prior: Journal, r: Request): Journal {
    var want := Wanted(r);
    var header := prior.(date := want.date, totalDebit := want.totalDebit, totalCredit := want.totalCredit);
    if r.OpeningRequest? then header.(kind := Opening, currency := want.currency, status := Draft) else header
  }

  function WithJournal(s: Keyed, id: nat, j: Journal): Keyed
    requires id < |s.books.journals|
  {
    s.(books := s.books.(journals := s.books.journals[id := j]))
  }

  function Perform(s: Keyed, key: string, id: nat, r: Request, w: Write): (Keyed, Option<Refusal>) {
    var want := Wanted(r);
    if w.InsertHeader? then
      if want.totalDebit < 0 || want.totalCredit < 0 then (s, Some(ConstraintViolated))
      else
        (Keyed(s.books.(journals := s.books.journals + [want.(lines := [])]), s.keys[key := |s.books.journals|]), None)
    else if id >= |s.books.journals| then (s, Some(NotFound))
    else
      var j := s.books.journals[id];
      match w
      case UpdateHeader =>
        if want.totalDebit < 0 || want.totalCredit < 0 then (s, Some(ConstraintViolated))
        else (WithJournal(s, id, Rewritten(j, r)), None)
      case DeleteLines => (WithJournal(s, id, j.(lines := [])), None)
      case InsertLines =>
        if exists l :: l in want.lines && !LineAllowed(l) then (s, Some(ConstraintViolated))
        else (WithJournal(s, id, j.(lines := j.lines + want.lines)), None)
      case PostEntry =>
        var (posted, outcome) := PostJournal(s.books, id);
        (s.(books := posted), if outcome.Refused? then Some(outcome.why) else None)
  }

  /** Performs the writes in order; `budget` of them happen before the process dies. */
  function Execute(s: Keyed, key: string, id: nat, r: Request, writes: seq<Write>, budget: nat): (Keyed, Attempt)
    decreases |writes|
  {
    if writes == [] then (s, Completed(id))
    else if budget == 0 then (s, Crashed)
    else
      var (t, refusal) := Perform(s, key, id, r, writes[0]);
      if refusal.Some? then (t, Failed(refusal.value))
      else Execute(t, key, id, r, writes[1..], budget - 1)
  }

  predicate PostedUnder(s: Keyed, key: string) {
    key in s.keys && s.keys[key] < |s.books.journals| && s.books.journals[s.keys[key]].status.Posted?
  }

  function TryPost(s: Keyed, key: string, r: Request, budget: nat): (Keyed, Attempt) {
    var refusal := CheckRequest(r);
    if refusal.Some? then (s, Failed(refusal.value))
    else if PostedUnder(s, key) then
      (s, if multiset(s.books.journals[s.keys[key]].lines) == multiset(Wanted(r).lines)
          then Unchanged(s.keys[key]) else Failed(Changed))
    else
      var drafted := key in s.keys;
      Execute(s, key, if drafted then s.keys[key] else |s.books.journals|, r, Writes(r, drafted), budget)
  }

  // ---- Runs, with every other operation of the books in between ----

  datatype KeyedStep = Try(key: string, request: Request, budget: nat) | Other(step: Step)

  function Take(s: Keyed, step: KeyedStep): Keyed {
    match step
    case Try(key, r, budget) => TryPost(s, key, r, budget).0
    case Other(other) => s.(books := Apply(s.books, other))
  }

  function TakeAll(s: Keyed, steps: seq<KeyedStep>): Keyed {
    if steps == [] then s else Take(TakeAll(s, steps[..|steps| - 1]), steps[|steps| - 1])
  }

  // ---- The invariant: a draft has no rows, a posted journal has its lines' rows once ----

  function OfJournal(id: nat): Row -> bool { (r: Row) => r.origin == FromJournal(id) }

  ghost predicate PostedOnce(rows: seq<Row>, j: Journal, id: nat) {
    Filter(rows, OfJournal(id)) == if j.status.Posted? then JournalRows(id, j) else []
  }

  ghost predicate BooksOnce(b: Books) {
    && (forall r :: r in b.rows && r.origin.FromJournal? ==> r.origin.journal < |b.journals|)
    && forall id :: 0 <= id < |b.journals| ==> PostedOnce(b.rows, b.journals[id], id)
  }

  ghost predicate Once(s: Keyed) {
    BooksOnce(s.books) && forall key :: key in s.keys ==> s.keys[key] < |s.books.journals|
  }

  /** What the ledger holds of a posted journal, and the journal itself, never change again. */
  ghost predicate Kept(b: Books, c: Books) {
    && |b.journals| <= |c.journals|
    && forall id :: 0 <= id < |b.journals| && b.journals[id].status.Posted? ==>
         c.journals[id] == b.journals[id].(reversedBy := c.journals[id].reversedBy)
  }

  lemma AppendKeepsOnce(rows: seq<Row>, more: seq<Row>, j: Journal, id: nat)
    requires PostedOnce(rows, j, id) && forall r :: r in more ==> r.origin != FromJournal(id)
    ensures PostedOnce(rows + more, j, id)
  {
    FilterAppend(rows, more, OfJournal(id));
    FilterNone(more, OfJournal(id));
  }

  lemma RowsOfJournal(id: nat, j: Journal)
    ensures forall r :: r in JournalRows(id, j) ==> r.origin == FromJournal(id)
  {
  }

  /** Rows depend only on the date, the currency and the lines. */
  lemma {:induction false} SameJournalRows(id: nat, j: Journal, k: Journal)
    requires j.date == k.date && j.currency == k.currency && j.lines == k.lines
    ensures JournalRows(id, j) == JournalRows(id, k)
  {
    assert forall i :: 0 <= i < |j.lines| ==> JournalRows(id, j)[i] == JournalRows(id, k)[i];
  }

  lemma DocumentOnce(b: Books, doc: Document)
    requires BooksOnce(b)
    ensures BooksOnce(PostDocument(b, doc).0) && Kept(b, PostDocument(b, doc).0)
  {
    var c := PostDocument(b, doc).0;
    if c != b {
      var more := DocumentRows(doc);
      forall id | 0 <= id < |b.journals| ensures PostedOnce(c.rows, c.journals[id], id) {
        AppendKeepsOnce(b.rows, more, b.journals[id], id);
      }
    }
  }

  lemma DraftOnce(b: Books, j: Journal)
    requires BooksOnce(b) && j.status.Draft?
    ensures var c := b.(journals := b.journals + [j]); BooksOnce(c) && Kept(b, c)
  {
    var c := b.(journals := b.journals + [j]);
    forall id | 0 <= id < |c.journals| ensures PostedOnce(c.rows, c.journals[id], id) {
      if id == |b.journals| {
        FilterNone(b.rows, OfJournal(id));
      } else {
        assert PostedOnce(b.rows, b.journals[id], id);
      }
    }
  }

  lemma PostOnceAt(b: Books, id: nat, k: nat)
    requires BooksOnce(b) && id < |b.journals| && k < |b.journals| && b.journals[id].status.Draft?
    ensures var j := b.journals[id];
      PostedOnce(b.rows + JournalRows(id, j), if k == id then j.(status := Posted) else b.journals[k], k)
  {
    hide JournalRows;
    var j := b.journals[id];
    var more := JournalRows(id, j);
    RowsOfJournal(id, j);
    SameJournalRows(id, j, j.(status := Posted));
    assert PostedOnce(b.rows, b.journals[k], k);
    FilterAppend(b.rows, more, OfJournal(k));
    if k == id { FilterAll(more, OfJournal(k)); } else { FilterNone(more, OfJournal(k)); }
  }

  lemma PostOnce(b: Books, id: nat)
    requires BooksOnce(b)
    ensures BooksOnce(PostJournal(b, id).0) && Kept(b, PostJournal(b, id).0)
  {
    hide ValidateContext, LinePostable, PostedOnce, JournalRows;
    var c := PostJournal(b, id).0;
    if PostingRefusal(b, id).None? {
      RowsOfJournal(id, b.journals[id]);
      forall k | 0 <= k < |c.journals| ensures PostedOnce(c.rows, c.journals[k], k) {
        PostOnceAt(b, id, k);
      }
    }
  }

  lemma KeptTransitive(b: Books, c: Books, d: Books)
    requires Kept(b, c) && Kept(c, d)
    ensures Kept(b, d)
  {
    forall id | 0 <= id < |b.journals| && b.journals[id].status.Posted?
      ensures d.journals[id] == b.journals[id].(reversedBy := d.journals[id].reversedBy)
    {
      assert c.journals[id] == b.journals[id].(reversedBy := c.journals[id].reversedBy);
    }
  }

  lemma CreateOnce(b: Books, draft: Journal)
    requires BooksOnce(b) && draft.status.Draft?
    ensures BooksOnce(CreateDraft(b, draft).0) && Kept(b, CreateDraft(b, draft).0)
  {
    DraftOnce(b, draft);
    DraftOnce(b, draft.(lines := []));
  }

  lemma DraftAndPostOnce(b: Books, draft: Journal)
    requires BooksOnce(b) && draft.status.Draft?
    ensures BooksOnce(DraftAndPost(b, draft).0) && Kept(b, DraftAndPost(b, draft).0)
  {
    hide BooksOnce, Kept, PostJournal, CreateDraft;
    CreateOnce(b, draft);
    var drafted := CreateDraft(b, draft).0;
    PostOnce(drafted, |b.journals|);
    KeptTransitive(b, drafted, PostJournal(drafted, |b.journals|).0);
  }

  lemma RelinkOnce(b: Books, id: nat, reversal: Option<nat>)
    requires BooksOnce(b) && id < |b.journals|
    ensures var c := b.(journals := b.journals[id := b.journals[id].(reversedBy := reversal)]);
      BooksOnce(c) && Kept(b, c)
  {
    var c := b.(journals := b.journals[id := b.journals[id].(reversedBy := reversal)]);
    SameJournalRows(id, b.journals[id], c.journals[id]);
    forall k | 0 <= k < |c.journals| ensures PostedOnce(c.rows, c.journals[k], k) {
      assert PostedOnce(b.rows, b.journals[k], k);
    }
  }

  lemma ReverseOnce(b: Books, id: nat, date: int)
    requires BooksOnce(b)
    ensures BooksOnce(Reverse(b, id, date).0) && Kept(b, Reverse(b, id, date).0)
  {
    hide BooksOnce, Kept, DraftAndPost, ValidateContext;
    KeptItself(b);
    if id < |b.journals| {
      var draft := NewDraft(Reversing, date, b.journals[id].currency, Swapped(b.journals[id].lines), Some(id));
      DraftAndPostOnce(b, draft);
      var posted := DraftAndPost(b, draft).0;
      if id < |posted.journals| {
        RelinkOnce(posted, id, Some(|b.journals|));
        KeptTransitive(b, posted, posted.(journals := posted.journals[id := posted.journals[id].(reversedBy := Some(|b.journals|))]));
      }
    }
  }

  lemma KeptItself(b: Books)
    ensures Kept(b, b)
  {
  }

  lemma AdjustOnce(b: Books, id: nat, date: int, lines: seq<Line>, autoPost: bool)
    requires BooksOnce(b)
    ensures BooksOnce(Adjust(b, id, date, lines, autoPost).0) && Kept(b, Adjust(b, id, date, lines, autoPost).0)
  {
    hide BooksOnce, Kept, DraftAndPost, CreateDraft, ValidateContext;
    KeptItself(b);
    if id < |b.journals| {
      var draft := NewDraft(Adjusting, date, b.journals[id].currency, lines, Some(id));
      DraftAndPostOnce(b, draft);
      CreateOnce(b, draft);
    }
  }

  lemma CloseOnce(b: Books, p: nat, currency: string)
    requires BooksOnce(b)
    ensures BooksOnce(CloseYear(b, p, currency).0) && Kept(b, CloseYear(b, p, currency).0)
  {
    hide BooksOnce, Kept, PostJournal, CreateDraft, CarryForward, PeriodBalances, ClosingLines, NetIncome;
    KeptItself(b);
    if CloseRefusal(b, p).None? {
      var period := b.periods[p];
      var retained := FindRetained(b.chart).value.id;
      var draft := NewDraft(Closing, period.end, currency, ClosingLines(PeriodBalances(b, period), retained), None);
      CreateOnce(b, draft);
      var drafted := CreateDraft(b, draft).0;
      PostOnce(drafted, |b.journals|);
      KeptTransitive(b, drafted, PostJournal(drafted, |b.journals|).0);
      var posted := PostClosing(b, period, retained, currency).0;
      if p < |posted.periods| {
        var net := NetIncome(PeriodBalances(b, period));
        CarryOnce(posted, p, currency, net, |b.journals|);
        KeptTransitive(b, posted, CarryForward(posted, p, currency, net, |b.journals|).0);
      }
    }
  }

  lemma CarryOnce(b: Books, p: nat, currency: string, netIncome: int, closing: nat)
    requires BooksOnce(b) && p < |b.periods|
    ensures var c := CarryForward(b, p, currency, netIncome, closing).0; BooksOnce(c) && Kept(b, c)
  {
    hide OpeningLines, FiscalCalendar.NextFiscalPeriod;
    var next := FiscalCalendar.NextFiscalPeriod(b.periods[p].end);
    DraftOnce(b, NewDraft(Opening, next.start, currency, OpeningLines(b, b.periods[p].end), None));
  }

  lemma ApplyOnce(b: Books, step: Step)
    requires BooksOnce(b)
    ensures BooksOnce(Apply(b, step)) && Kept(b, Apply(b, step))
  {
    hide PostDocument, PostJournal, CreateDraft, Reverse, Adjust, CloseYear, FiscalCalendar.FiscalPeriodForDate, PostedOnce;
    match step
    case DocumentStep(doc) => DocumentOnce(b, doc);
    case DraftStep(date, currency, lines, source) =>
      CreateOnce(b, NewDraft(Standard, date, currency, lines,
                             if source.Some? && source.value < |b.journals| then source else None));
    case PostStep(id) => PostOnce(b, id);
    case ReverseStep(id, date) => ReverseOnce(b, id, date);
    case AdjustStep(id, date, lines, autoPost) => AdjustOnce(b, id, date, lines, autoPost);
    case CloseStep(p, currency) => CloseOnce(b, p, currency);
    case _ =>
  }

  // ---- The writes of an attempt ----

  /** The journal the writes work on is still a draft. */
  predicate DraftAt(b: Books, id: nat) { id < |b.journals| && b.journals[id].status.Draft? }

  lemma EditOnce(b: Books, id: nat, j: Journal)
    requires BooksOnce(b) && DraftAt(b, id) && j.status.Draft?
    ensures var c := b.(journals := b.journals[id := j]); BooksOnce(c) && Kept(b, c)
  {
    var c := b.(journals := b.journals[id := j]);
    forall k | 0 <= k < |c.journals| ensures PostedOnce(c.rows, c.journals[k], k) {
      assert PostedOnce(b.rows, b.journals[k], k);
    }
  }

  lemma PerformOnce(s: Keyed, key: string, id: nat, r: Request, w: Write)
    requires Once(s) && (if w.InsertHeader? then id == |s.books.journals| else DraftAt(s.books, id))
    ensures var (t, refusal) := Perform(s, key, id, r, w);
      && Once(t) && Kept(s.books, t.books)
      && (refusal.None? && !w.PostEntry? ==> DraftAt(t.books, id))
      && (refusal.Some? || !w.PostEntry? ==> t.books.rows == s.books.rows)
  {
    hide BooksOnce, Kept, PostJournal;
    KeptItself(s.books);
    match w {
      case InsertHeader => DraftOnce(s.books, Wanted(r).(lines := []));
      case UpdateHeader => EditOnce(s.books, id, Rewritten(s.books.journals[id], r));
      case DeleteLines => EditOnce(s.books, id, s.books.journals[id].(lines := []));
      case InsertLines => EditOnce(s.books, id, s.books.journals[id].(lines := s.books.journals[id].lines + Wanted(r).lines));
      case PostEntry =>
        PostOnce(s.books, id);
        PostRefused(s.books, id);
        KeptLength(s.books, PostJournal(s.books, id).0);
    }
  }

  lemma KeptLength(b: Books, c: Books)
    requires Kept(b, c)
    ensures |b.journals| <= |c.journals|
  {
  }

  lemma PostRefused(b: Books, id: nat)
    ensures PostJournal(b, id).1.Refused? ==> PostJournal(b, id).0 == b
  {
  }

  /** Writes that are still to come: the entry is posted by the last of them. */
  predicate Pending(writes: seq<Write>) {
    && (forall i :: 0 < i < |writes| ==> !writes[i].InsertHeader?)
    && (forall i :: 0 <= i < |writes| - 1 ==> !writes[i].PostEntry?)
  }

  lemma {:induction false} ExecuteOnce(s: Keyed, key: string, id: nat, r: Request, writes: seq<Write>, budget: nat)
    requires Once(s) && Pending(writes)
    requires writes != [] ==> if writes[0].InsertHeader? then id == |s.books.journals| else DraftAt(s.books, id)
    ensures var (t, outcome) := Execute(s, key, id, r, writes, budget);
      && Once(t) && Kept(s.books, t.books)
      && (!outcome.Completed? ==> t.books.rows == s.books.rows)
    decreases |writes|
  {
    hide Once, Kept, Perform;
    KeptItself(s.books);
    if writes != [] && budget > 0 {
      PerformOnce(s, key, id, r, writes[0]);
      var (t, refusal) := Perform(s, key, id, r, writes[0]);
      if refusal.None? {
        ExecuteOnce(t, key, id, r, writes[1..], budget - 1);
        KeptTransitive(s.books, t.books, Execute(t, key, id, r, writes[1..], budget - 1).0.books);
      }
    }
  }

  lemma TryOnce(s: Keyed, key: string, r: Request, budget: nat)
    requires Once(s)
    ensures var (t, outcome) := TryPost(s, key, r, budget);
      && Once(t) && Kept(s.books, t.books)
      && (!outcome.Completed? ==> t.books.rows == s.books.rows)
  {
    hide BooksOnce, Kept, Execute;
    KeptItself(s.books);
    if CheckRequest(r).None? && !PostedUnder(s, key) {
      var drafted := key in s.keys;
      ExecuteOnce(s, key, if drafted then s.keys[key] else |s.books.journals|, r, Writes(r, drafted), budget);
    }
  }

  lemma TakeOnce(s: Keyed, step: KeyedStep)
    requires Once(s)
    ensures Once(Take(s, step)) && Kept(s.books, Take(s, step).books)
  {
    hide BooksOnce, Kept, TryPost, Apply;
    match step
    case Try(key, r, budget) => TryOnce(s, key, r, budget);
    case Other(other) =>
      ApplyOnce(s.books, other);
      KeptLength(s.books, Apply(s.books, other));
  }

  /**
   After any run of attempts, crashes and other operations, every journal's
   lines are in the ledger exactly once if it is posted and not at all if not.
   */
  lemma {:induction false} RunPostsOnce(s: Keyed, steps: seq<KeyedStep>)
    requires Once(s)
    ensures Once(TakeAll(s, steps)) && Kept(s.books, TakeAll(s, steps).books)
  {
    hide Once, Kept, Take;
    KeptItself(s.books);
    if steps != [] {
      var t := TakeAll(s, steps[..|steps| - 1]);
      RunPostsOnce(s, steps[..|steps| - 1]);
      TakeOnce(t, steps[|steps| - 1]);
      KeptTransitive(s.books, t.books, Take(t, steps[|steps| - 1]).books);
    }
  }
}
