/** Posting under a key: exactly once, whatever was cut short before and whatever runs after. */
module ExactlyOnce {
  import opened Wrappers
  import opened Sums
  import opened Money
  import opened Accounts
  import opened Ledger
  import opened Posting
  import opened Books
  import opened BookInvariants
  import opened KeyedJournals

  // ---- What a completed attempt has posted ----

  ghost predicate KeysKept(s: Keyed, t: Keyed) {
    forall key :: key in s.keys ==> key in t.keys && t.keys[key] == s.keys[key]
  }

  lemma {:induction false} ExecuteKeys(s: Keyed, key: string, id: nat, r: Request, writes: seq<Write>, budget: nat)
    requires key in s.keys ==> forall w :: w in writes ==> !w.InsertHeader?
    requires forall i :: 0 < i < |writes| ==> !writes[i].InsertHeader?
    ensures KeysKept(s, Execute(s, key, id, r, writes, budget).0)
    decreases |writes|
  {
    hide PostJournal;
    if writes != [] && budget > 0 {
      var (t, refusal) := Perform(s, key, id, r, writes[0]);
      if refusal.None? { ExecuteKeys(t, key, id, r, writes[1..], budget - 1); }
    }
  }

  lemma TakeKeys(s: Keyed, step: KeyedStep)
    ensures KeysKept(s, Take(s, step))
  {
    hide Execute, Apply;
    if step.Try? {
      var drafted := step.key in s.keys;
      var id := if drafted then s.keys[step.key] else |s.books.journals|;
      ExecuteKeys(s, step.key, id, step.request, Writes(step.request, drafted), step.budget);
    }
  }

  lemma {:induction false} RunKeys(s: Keyed, steps: seq<KeyedStep>)
    ensures KeysKept(s, TakeAll(s, steps))
  {
    hide Take;
    if steps != [] {
      RunKeys(s, steps[..|steps| - 1]);
      TakeKeys(TakeAll(s, steps[..|steps| - 1]), steps[|steps| - 1]);
    }
  }

  function IdFor(s: Keyed, key: string): nat { if key in s.keys then s.keys[key] else |s.books.journals| }

  /** The journal as it stands just before it is posted. */
  function PreparedJournal(s: Keyed, key: string, r: Request): Journal {
    if key in s.keys && s.keys[key] < |s.books.journals|
      then Rewritten(s.books.journals[s.keys[key]], r).(lines := Wanted(r).lines)
      else Wanted(r)
  }

  function Prepared(s: Keyed, key: string, r: Request): Keyed
    requires IdFor(s, key) <= |s.books.journals|
  {
    var id, j := IdFor(s, key), PreparedJournal(s, key, r);
    if id < |s.books.journals| then WithJournal(s, id, j)
    else Keyed(s.books.(journals := s.books.journals + [j]), s.keys[key := id])
  }

  predicate LinesAllowed(r: Request) { forall l :: l in Wanted(r).lines ==> LineAllowed(l) }

  lemma AllowedTotals(r: Request)
    requires LinesAllowed(r) && CheckRequest(r).None?
    ensures Wanted(r).totalDebit >= 0 && Wanted(r).totalCredit >= 0
  {
    if r.OpeningRequest? {
      SumNonNegative(Wanted(r).lines, LineDebit());
      SumNonNegative(Wanted(r).lines, LineCredit());
    }
  }

  lemma ExecuteFirst(s: Keyed, key: string, id: nat, r: Request, writes: seq<Write>, budget: nat)
    requires writes != [] && budget > 0
    ensures Execute(s, key, id, r, writes, budget) ==
      var (t, refusal) := Perform(s, key, id, r, writes[0]);
      if refusal.Some? then (t, Failed(refusal.value)) else Execute(t, key, id, r, writes[1..], budget - 1)
  {
  }

  /** A list of writes completes only if the process survives all of them. */
  lemma {:induction false} CompletesWithin(s: Keyed, key: string, id: nat, r: Request, writes: seq<Write>, budget: nat)
    requires Execute(s, key, id, r, writes, budget).1.Completed?
    ensures budget >= |writes| && Execute(s, key, id, r, writes, budget).1.id == id
    ensures InsertLines in writes ==> LinesAllowed(r)
    decreases |writes|
  {
    hide PostJournal;
    if writes != [] { CompletesWithin(Perform(s, key, id, r, writes[0]).0, key, id, r, writes[1..], budget - 1); }
  }

  function PostPrepared(t: Keyed, id: nat): (Keyed, Attempt) {
    var (posted, outcome) := PostJournal(t.books, id);
    (t.(books := posted), if outcome.Refused? then Failed(outcome.why) else Completed(id))
  }

  lemma LastWrite(t: Keyed, key: string, id: nat, r: Request, budget: nat)
    requires budget >= 1 && id < |t.books.journals|
    ensures Execute(t, key, id, r, [PostEntry], budget) == PostPrepared(t, id)
  {
    hide PostJournal;
    ExecuteFirst(t, key, id, r, [PostEntry], budget);
    assert [PostEntry][1..] == [];
  }

  lemma InsertAndPost(t: Keyed, key: string, id: nat, r: Request, budget: nat)
    requires budget >= 2 && id < |t.books.journals| && t.books.journals[id].lines == [] && LinesAllowed(r)
    ensures Execute(t, key, id, r, [InsertLines, PostEntry], budget)
         == PostPrepared(WithJournal(t, id, t.books.journals[id].(lines := Wanted(r).lines)), id)
  {
    hide PostJournal, Wanted;
    ExecuteFirst(t, key, id, r, [InsertLines, PostEntry], budget);
    assert [InsertLines, PostEntry][1..] == [PostEntry];
    assert [] + Wanted(r).lines == Wanted(r).lines;
    LastWrite(WithJournal(t, id, t.books.journals[id].(lines := Wanted(r).lines)), key, id, r, budget - 1);
  }

  lemma SameEdit(t: Keyed, id: nat, j: Journal, k: Journal)
    requires id < |t.books.journals|
    ensures WithJournal(WithJournal(t, id, j), id, k) == WithJournal(t, id, k)
    ensures WithJournal(t, id, j).books.journals[id] == j
  {
    assert t.books.journals[id := j][id := k] == t.books.journals[id := k];
  }

  /** Whatever earlier attempts left behind, the writes end by posting exactly the wanted lines. */
  lemma AttemptUnrolled(s: Keyed, key: string, r: Request, budget: nat)
    requires IdFor(s, key) <= |s.books.journals| && (key in s.keys ==> s.keys[key] < |s.books.journals|)
    requires LinesAllowed(r) && CheckRequest(r).None? && !PostedUnder(s, key)
    requires budget >= |Writes(r, key in s.keys)|
    ensures TryPost(s, key, r, budget) == PostPrepared(Prepared(s, key, r), IdFor(s, key))
  {
    hide PostJournal, Execute, PostPrepared, Wanted, CheckRequest, LinesAllowed;
    AllowedTotals(r);
    var id := IdFor(s, key);
    var writes := Writes(r, key in s.keys);
    var want := Wanted(r);
    ExecuteFirst(s, key, id, r, writes, budget);
    if key in s.keys {
      var j := s.books.journals[id];
      var rest := writes[1..];
      assert rest == [writes[1], InsertLines, PostEntry] && rest[1..] == [InsertLines, PostEntry];
      var first := Perform(s, key, id, r, writes[0]).0;
      var j1 := if r.OpeningRequest? then j.(lines := []) else Rewritten(j, r);
      SameEdit(s, id, j1, Rewritten(j, r).(lines := []));
      ExecuteFirst(first, key, id, r, rest, budget - 1);
      var second := WithJournal(s, id, Rewritten(j, r).(lines := []));
      assert Perform(first, key, id, r, rest[0]) == (second, None);
      InsertAndPost(second, key, id, r, budget - 2);
      SameEdit(s, id, Rewritten(j, r).(lines := []), Rewritten(j, r).(lines := want.lines));
    } else {
      assert writes[1..] == [InsertLines, PostEntry];
      var t := Keyed(s.books.(journals := s.books.journals + [want.(lines := [])]), s.keys[key := id]);
      assert Perform(s, key, id, r, writes[0]) == (t, None);
      InsertAndPost(t, key, id, r, budget - 1);
      assert (s.books.journals + [want.(lines := [])])[id := want] == s.books.journals + [want];
      assert want.(lines := []).(lines := want.lines) == want;
    }
  }

  lemma CompletedIsUnrolled(s: Keyed, key: string, r: Request, budget: nat)
    requires Once(s) && TryPost(s, key, r, budget).1.Completed?
    ensures CheckRequest(r).None? && !PostedUnder(s, key) && LinesAllowed(r)
    ensures IdFor(s, key) <= |s.books.journals|
    ensures TryPost(s, key, r, budget) == PostPrepared(Prepared(s, key, r), IdFor(s, key))
  {
    hide BooksOnce, Execute, CheckRequest, LinesAllowed, PostPrepared, Prepared;
    var writes := Writes(r, key in s.keys);
    CompletesWithin(s, key, IdFor(s, key), r, writes, budget);
    assert writes[|writes| - 2] == InsertLines;
    AttemptUnrolled(s, key, r, budget);
  }

  /**
   An attempt that completes posts the wanted lines and nothing else, under a
   key that had posted nothing before.
   */
  lemma CompletedPostsWanted(s: Keyed, key: string, r: Request, budget: nat)
    requires Once(s) && TryPost(s, key, r, budget).1.Completed?
    ensures var (t, outcome) := TryPost(s, key, r, budget);
      var id := outcome.id;
      && !PostedUnder(s, key) && PostedUnder(t, key) && t.keys[key] == id
      && t.books.journals[id].lines == Wanted(r).lines && t.books.journals[id].date == Wanted(r).date
      && t.books.rows == s.books.rows + JournalRows(id, t.books.journals[id])
  {
    hide BooksOnce, TryPost, CheckRequest, LinesAllowed, PostingRefusal, Wanted;
    CompletedIsUnrolled(s, key, r, budget);
    var id, j := IdFor(s, key), PreparedJournal(s, key, r);
    PreparedIs(s, key, r);
    SameJournalRows(id, j, j.(status := Posted));
    PostingRange(Prepared(s, key, r).books, id);
  }

  lemma PostingRange(b: Books, id: nat)
    ensures PostingRefusal(b, id).None? ==> id < |b.journals|
  {
  }

  lemma PreparedIs(s: Keyed, key: string, r: Request)
    requires IdFor(s, key) <= |s.books.journals| && (key in s.keys ==> s.keys[key] < |s.books.journals|)
    ensures var (id, j, t) := (IdFor(s, key), PreparedJournal(s, key, r), Prepared(s, key, r));
      && id < |t.books.journals| && t.books.journals[id] == j && key in t.keys && t.keys[key] == id
      && j.lines == Wanted(r).lines && j.date == Wanted(r).date
      && j.totalDebit == Wanted(r).totalDebit && j.totalCredit == Wanted(r).totalCredit
      && t.books.rows == s.books.rows && t.books.chart == s.books.chart && t.books.periods == s.books.periods
  {
    hide Wanted;
  }

  /** What the posting rules ask of the wanted journal, on the books as they are. */
  predicate Postable(b: Books, r: Request) {
    var want := Wanted(r);
    && LinesAllowed(r)
    && ValidateContext(b, want.date, want.lines).None?
    && want.totalDebit == want.totalCredit && want.totalDebit > 0
    && Insertable(b.chart, want.lines)
  }

  /**
   However earlier attempts were cut short, an attempt that is allowed to finish
   completes exactly when its own lines meet the posting rules.
   */
  lemma CompletesIff(s: Keyed, key: string, r: Request, budget: nat)
    requires Once(s) && CheckRequest(r).None? && !PostedUnder(s, key) && budget >= 4
    ensures TryPost(s, key, r, budget).1.Completed? <==> Postable(s.books, r)
  {
    hide BooksOnce, TryPost, CheckRequest, ValidateContext, Insertable, Wanted, Prepared, PreparedJournal;
    if LinesAllowed(r) {
      AttemptUnrolled(s, key, r, budget);
      PreparedIs(s, key, r);
      var t, id := Prepared(s, key, r), IdFor(s, key);
      NoRowsYet(s, key);
      SameContext(s.books, t.books, Wanted(r).date, Wanted(r).lines);
      PreparedIsDraft(s, key, r);
    } else if TryPost(s, key, r, budget).1.Completed? {
      CompletedIsUnrolled(s, key, r, budget);
    }
  }

  lemma NoRowsYet(s: Keyed, key: string)
    requires Once(s) && !PostedUnder(s, key)
    ensures !HasOrigin(s.books.rows, FromJournal(IdFor(s, key)))
  {
    var id := IdFor(s, key);
    if id < |s.books.journals| {
      assert PostedOnce(s.books.rows, s.books.journals[id], id);
      FilterEmpty(s.books.rows, OfJournal(id));
      assert forall row :: row in s.books.rows ==> !OfJournal(id)(row);
    }
  }

  lemma PreparedIsDraft(s: Keyed, key: string, r: Request)
    requires !PostedUnder(s, key) && (key in s.keys ==> s.keys[key] < |s.books.journals|)
    ensures PreparedJournal(s, key, r).status.Draft?
  {
  }

  /**
   Exactly once. After a completed attempt, whatever runs next, the ledger holds
   the rows of that attempt's lines once, and every later attempt under the key
   changes nothing: it is acknowledged when its lines are the same ones in any
   order, and refused when they are not.
   */
  lemma PostsExactlyOnce(s: Keyed, key: string, r: Request, budget: nat, steps: seq<KeyedStep>, again: Request, retries: nat)
    requires Once(s) && TryPost(s, key, r, budget).1.Completed?
    ensures var (posted, outcome) := TryPost(s, key, r, budget);
      var id := outcome.id;
      var t := TakeAll(posted, steps);
      && id < |posted.books.journals| && posted.books.journals[id].lines == Wanted(r).lines
      && Filter(t.books.rows, OfJournal(id)) == JournalRows(id, posted.books.journals[id])
      && TryPost(t, key, again, retries) ==
           (t, if CheckRequest(again).Some? then Failed(CheckRequest(again).value)
               else if multiset(Wanted(again).lines) == multiset(Wanted(r).lines) then Unchanged(id)
               else Failed(Changed))
  {
    hide BooksOnce, CheckRequest, Wanted, Execute, TakeAll;
    var (posted, outcome) := TryPost(s, key, r, budget);
    var id := outcome.id;
    CompletedPostsWanted(s, key, r, budget);
    TryOnce(s, key, r, budget);
    RunPostsOnce(posted, steps);
    RunKeys(posted, steps);
    var t := TakeAll(posted, steps);
    PostedRows(t, id);
    SameJournalRows(id, t.books.journals[id], posted.books.journals[id]);
  }

  lemma PostedRows(t: Keyed, id: nat)
    requires Once(t) && id < |t.books.journals| && t.books.journals[id].status.Posted?
    ensures Filter(t.books.rows, OfJournal(id)) == JournalRows(id, t.books.journals[id])
  {
    assert PostedOnce(t.books.rows, t.books.journals[id], id);
  }

  /**
   Reversing the posted journal does not free its key: a changed request is
   still refused, although the error text advises to reverse first.
   */
  lemma ReversalDoesNotFreeTheKey(s: Keyed, key: string, r: Request, budget: nat, date: int, again: Request, retries: nat)
    requires Once(s) && TryPost(s, key, r, budget).1.Completed?
    requires CheckRequest(again).None? && multiset(Wanted(again).lines) != multiset(Wanted(r).lines)
    ensures var (posted, outcome) := TryPost(s, key, r, budget);
      var reversed := posted.(books := Reverse(posted.books, outcome.id, date).0);
      TryPost(reversed, key, again, retries) == (reversed, Failed(Changed))
  {
    hide TryPost, Once, CheckRequest, Wanted, Reverse;
    var (posted, outcome) := TryPost(s, key, r, budget);
    var steps := [Other(ReverseStep(outcome.id, date))];
    PostsExactlyOnce(s, key, r, budget, steps, again, retries);
    assert steps[..0] == [];
    assert TakeAll(posted, steps[..0]) == posted;
    assert TakeAll(posted, steps) == posted.(books := Reverse(posted.books, outcome.id, date).0);
  }

  // ---- What it moves ----

  /** A completed attempt moves each account by its own lines, on its own date. */
  lemma CompletedMoves(s: Keyed, key: string, r: Request, budget: nat, account: string, w: Window)
    requires Once(s) && TryPost(s, key, r, budget).1.Completed?
    ensures Movement(TryPost(s, key, r, budget).0.books.rows, account, w)
         == Movement(s.books.rows, account, w)
            + if Within(w, Wanted(r).date) then Sum(Wanted(r).lines, LineNetOn(account)) else 0
  {
    hide BooksOnce, TryPost, Wanted, JournalRows;
    CompletedPostsWanted(s, key, r, budget);
    var (t, outcome) := TryPost(s, key, r, budget);
    MovementAppend(s.books.rows, JournalRows(outcome.id, t.books.journals[outcome.id]), account, w);
    JournalMovement(outcome.id, t.books.journals[outcome.id], account, w);
  }

  /** A transfer journal takes the amount from one account, gives it to the other, and touches no third. */
  lemma TransferMoves(
      s: Keyed, key: string, date: int, from: string, to: string, amount: int, budget: nat, account: string, w: Window)
    requires Once(s) && Within(w, date)
    requires TryPost(s, key, TransferRequest(date, from, to, amount), budget).1.Completed?
    ensures Movement(TryPost(s, key, TransferRequest(date, from, to, amount), budget).0.books.rows, account, w)
         == Movement(s.books.rows, account, w) + if account == to then amount else if account == from then -amount else 0
  {
    hide BooksOnce, TryPost;
    var r := TransferRequest(date, from, to, amount);
    CompletedMoves(s, key, r, budget, account, w);
    CompletedIsUnrolled(s, key, r, budget);
    var lines := Wanted(r).lines;
    assert lines == [lines[0], lines[1]];
    SumOfTwo(lines[0], lines[1], LineNetOn(account));
  }

  /** An opening journal moves each account by its opening balance; lines without an amount make no difference. */
  lemma OpeningMoves(
      s: Keyed, key: string, date: int, currency: string, lines: seq<Line>, budget: nat, account: string, w: Window)
    requires Once(s) && Within(w, date) && forall l :: l in lines ==> LineAllowed(l)
    requires TryPost(s, key, OpeningRequest(date, currency, lines), budget).1.Completed?
    ensures Movement(TryPost(s, key, OpeningRequest(date, currency, lines), budget).0.books.rows, account, w)
         == Movement(s.books.rows, account, w) + Sum(lines, LineNetOn(account))
  {
    hide BooksOnce, TryPost;
    CompletedMoves(s, key, OpeningRequest(date, currency, lines), budget, account, w);
    SumFilter(lines, NonZero(), LineNetOn(account));
  }
}
