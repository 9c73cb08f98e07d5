/** What every operation on the books keeps. */
module BookInvariants {
  import opened Wrappers
  import opened Sums
  import opened Money
  import opened Accounts
  import opened Ledger
  import opened Posting
  import opened Reports
  import opened Books

  ghost predicate RowsOk(s: Books) {
    forall r :: r in s.rows ==>
      && Known(s.chart, r.account)
      && r.debit >= 0 && r.credit >= 0
      && (r.origin.FromJournal? ==> r.origin.journal < |s.journals|)
  }

  predicate Totalled(j: Journal) {
    j.totalDebit == Sum(j.lines, LineDebit()) && j.totalCredit == Sum(j.lines, LineCredit())
  }

  /** A header whose totals agree has lines whose sums do, even if they are not these totals. */
  predicate Honest(j: Journal) {
    j.totalDebit == j.totalCredit ==> Sum(j.lines, LineDebit()) == Sum(j.lines, LineCredit())
  }

  /** A posted journal balances exactly, has no line twice, and its rows carry exactly its lines. */
  ghost predicate PostedOk(rows: seq<Row>, j: Journal, id: nat) {
    && j.lines != [] && Sum(j.lines, LineDebit()) == Sum(j.lines, LineCredit()) > 0 && Distinct(j.lines)
    && (forall l :: l in j.lines ==> OneSided(l.debit, l.credit))
    && forall a: string :: Sum(rows, RowNetOfJournal(a, id)) == Sum(j.lines, LineNetOn(a))
  }

  ghost predicate JournalOk(rows: seq<Row>, j: Journal, id: nat) {
    && Honest(j)
    && (forall l :: l in j.lines ==> LineAllowed(l))
    && (if j.status.Draft? then !HasOrigin(rows, FromJournal(id))
        else HasOrigin(rows, FromJournal(id)) && PostedOk(rows, j, id))
  }

  ghost predicate JournalsOk(s: Books) {
    forall id :: 0 <= id < |s.journals| ==> JournalOk(s.rows, s.journals[id], id)
  }

  /** Source links point backwards; a reversal swaps the lines of a posted journal. */
  ghost predicate LinkOk(journals: seq<Journal>, id: nat)
    requires id < |journals|
  {
    var j := journals[id];
    && (j.source.Some? ==> j.source.value < id)
    && (j.kind == Reversing ==>
          && j.source.Some? && j.source.value < id
          && journals[j.source.value].status.Posted?
          && j.lines == Swapped(journals[j.source.value].lines))
  }

  ghost predicate LinksOk(s: Books) {
    forall id :: 0 <= id < |s.journals| ==> LinkOk(s.journals, id)
  }

  ghost predicate ReversalsPosted(s: Books) {
    forall id :: 0 <= id < |s.journals| && s.journals[id].kind == Reversing ==> s.journals[id].status.Posted?
  }

  ghost predicate OneReversal(s: Books) {
    forall i, j, k :: 0 <= i < j < |s.journals| && Reverses(s.journals[i], k) ==> !Reverses(s.journals[j], k)
  }

  /** The period is closed, and within it no listed income, cost or expense account has any movement left. */
  ghost predicate Settled(s: Books, p: nat) {
    && p < |s.periods| && s.periods[p].closed
    && forall a :: a in s.chart && a.Listed() && IsProfitAndLoss(a.kind) ==> Movement(s.rows, a.id, Span(s.periods[p])) == 0
  }

  /** Every recorded year close settled a period, and no two the same one. */
  ghost predicate YearsSettled(s: Books) {
    && (forall c :: c in s.closings ==> Settled(s, c.period))
    && forall i, j :: 0 <= i < j < |s.closings| ==> s.closings[i].period != s.closings[j].period
  }

  /** Everything but the promise that reversals are posted, which drafting one breaks for a moment. */
  ghost predicate Sound(s: Books) {
    ChartOk(s.chart) && RowsOk(s) && JournalsOk(s) && LinksOk(s) && OneReversal(s) && YearsSettled(s)
  }

  ghost predicate Inv(s: Books) { Sound(s) && ReversalsPosted(s) }

  /** Validation looks at the chart and the periods only. */
  lemma SameContext(b: Books, c: Books, date: int, lines: seq<Line>)
    requires b.chart == c.chart && b.periods == c.periods
    ensures ValidateContext(b, date, lines) == ValidateContext(c, date, lines)
  {
  }

  // ---- Adding rows ----

  /** Rows dated outside closed periods leave the settled ones settled. */
  lemma SettledAppend(s: Books, more: seq<Row>)
    requires YearsSettled(s) && forall r :: r in more ==> !ClosedOn(s.periods, r.date)
    ensures YearsSettled(s.(rows := s.rows + more))
  {
    var t := s.(rows := s.rows + more);
    forall c, a | c in t.closings && a in t.chart && a.Listed() && IsProfitAndLoss(a.kind)
      ensures c.period < |t.periods| && Movement(t.rows, a.id, Span(t.periods[c.period])) == 0
    {
      assert Settled(s, c.period);
      var w := Span(t.periods[c.period]);
      MovementAppend(s.rows, more, a.id, w);
      forall r | r in more ensures RowNetOn(a.id, w)(r) == 0 {
        assert t.periods[c.period] in s.periods;
      }
      SumZero(more, RowNetOn(a.id, w));
    }
    forall c | c in t.closings ensures Settled(t, c.period) { assert Settled(s, c.period); }
  }

  /** Rows of other origins do not disturb a journal. */
  lemma JournalOkAppend(rows: seq<Row>, more: seq<Row>, j: Journal, id: nat)
    requires JournalOk(rows, j, id) && forall r :: r in more ==> r.origin != FromJournal(id)
    ensures JournalOk(rows + more, j, id)
  {
    forall a: string ensures Sum(rows + more, RowNetOfJournal(a, id)) == Sum(rows, RowNetOfJournal(a, id)) {
      SumAppend(rows, more, RowNetOfJournal(a, id));
      SumZero(more, RowNetOfJournal(a, id));
    }
  }

  lemma GroupAccounts(lines: seq<PostingLine>, g: PostingLine)
    requires g in Group(lines)
    ensures exists l :: l in Plain(lines) && l.account == g.account
  {
    GroupKeys(lines);
    var i :| 0 <= i < |Group(lines)| && Group(lines)[i] == g;
    assert HasKey(Group(lines), KeyOf(g));
    assert HasKey(lines, KeyOf(g));
    var k :| 0 <= k < |lines| && Kept(lines[k]) && KeyOf(lines[k]) == KeyOf(g);
    assert Plain(lines)[k] in Plain(lines);
  }

  lemma DocumentKeeps(s: Books, doc: Document)
    requires Inv(s)
    ensures Inv(PostDocument(s, doc).0)
  {
    var t := PostDocument(s, doc).0;
    if t != s {
      var more := DocumentRows(doc);
      assert t == s.(rows := s.rows + more);
      forall r | r in more
        ensures Known(s.chart, r.account) && r.debit >= 0 && r.credit >= 0
        ensures r.origin.FromDocument? && r.date == doc.date
      {
        var i :| 0 <= i < |more| && more[i] == r;
        GroupAccounts(doc.lines, Group(doc.lines)[i]);
        assert RowAllowed(r);
      }
      DocumentKeepsJournals(s, more);
      SettledAppend(s, more);
    }
  }

  lemma DocumentKeepsJournals(s: Books, more: seq<Row>)
    requires JournalsOk(s) && forall r :: r in more ==> r.origin.FromDocument?
    ensures JournalsOk(s.(rows := s.rows + more))
  {
    forall id | 0 <= id < |s.journals| ensures JournalOk(s.rows + more, s.journals[id], id) {
      JournalOkAppend(s.rows, more, s.journals[id], id);
    }
  }

  // ---- Drafting ----

  lemma AppendJournal(s: Books, j: Journal)
    requires Inv(s) && JournalOk(s.rows, j, |s.journals|) && j.status.Draft?
    requires LinkOk(s.journals + [j], |s.journals|)
    requires j.kind == Reversing ==> !exists i :: 0 <= i < |s.journals| && Reverses(s.journals[i], j.source.value)
    ensures var t := s.(journals := s.journals + [j]);
      Sound(t) && (j.kind != Reversing ==> Inv(t))
  {
    var t := s.(journals := s.journals + [j]);
    forall id | 0 <= id < |t.journals| ensures LinkOk(t.journals, id) {
      if id < |s.journals| { assert LinkOk(s.journals, id); }
    }
  }

  lemma NoRowsAhead(s: Books, id: nat)
    requires RowsOk(s) && id >= |s.journals|
    ensures !HasOrigin(s.rows, FromJournal(id))
  {
  }

  lemma DraftKeeps(s: Books, draft: Journal)
    requires Inv(s) && draft.status.Draft? && Totalled(draft) && draft.kind != Reversing
    requires draft.source.Some? ==> draft.source.value < |s.journals|
    ensures Inv(CreateDraft(s, draft).0)
  {
    NoRowsAhead(s, |s.journals|);
    var (t, outcome) := CreateDraft(s, draft);
    if t != s {
      AppendJournal(s, t.journals[|s.journals|]);
    }
  }

  // ---- Posting ----

  lemma JournalRowsMove(id: nat, j: Journal, a: string)
    ensures Sum(JournalRows(id, j), RowNetOfJournal(a, id)) == Sum(j.lines, LineNetOn(a))
  {
    SumMap(j.lines, JournalRow(id, j), RowNetOfJournal(a, id), LineNetOn(a));
  }

  lemma JournalMovement(id: nat, j: Journal, a: string, w: Window)
    ensures Movement(JournalRows(id, j), a, w) == if Within(w, j.date) then Sum(j.lines, LineNetOn(a)) else 0
  {
    if Within(w, j.date) {
      SumMap(j.lines, JournalRow(id, j), RowNetOn(a, w), LineNetOn(a));
    } else {
      MovementOfOneDate(JournalRows(id, j), a, w, j.date);
    }
  }

  lemma PostedJournalOk(s: Books, id: nat)
    requires id < |s.journals| && JournalOk(s.rows, s.journals[id], id) && PostingRefusal(s, id).None?
    ensures var j := s.journals[id].(status := Posted);
      JournalOk(s.rows + JournalRows(id, j), j, id)
  {
    var j := s.journals[id];
    var more := JournalRows(id, j);
    assert Sum<Line>([], LineDebit()) == 0;
    forall l | l in j.lines ensures OneSided(l.debit, l.credit) {
      assert LinePostable(s.chart, l) && LineAllowed(l);
    }
    forall a: string ensures Sum(s.rows + more, RowNetOfJournal(a, id)) == Sum(j.lines, LineNetOn(a)) {
      SumAppend(s.rows, more, RowNetOfJournal(a, id));
      SumZero(s.rows, RowNetOfJournal(a, id));
      JournalRowsMove(id, j, a);
    }
    assert more[0] in s.rows + more;
    assert JournalRows(id, j.(status := Posted)) == more by { SameRows(id, j); }
  }

  lemma {:induction false} SameRows(id: nat, j: Journal)
    ensures JournalRows(id, j.(status := Posted)) == JournalRows(id, j)
  {
    assert forall i :: 0 <= i < |j.lines| ==> JournalRows(id, j.(status := Posted))[i] == JournalRows(id, j)[i];
  }

  /** Posting keeps everything but the promise that reversals are posted, which it can only help. */
  lemma PostKeeps(s: Books, id: nat)
    requires Sound(s)
    ensures Sound(PostJournal(s, id).0)
    ensures ReversalsPosted(s) ==> ReversalsPosted(PostJournal(s, id).0)
  {
    hide RowsOk, JournalOk, LinkOk, YearsSettled, PostingRefusal, ChartOk, Reverses;
    if PostJournal(s, id).0 != s {
      PostedIsThere(s, id);
      PostKeepsJournals(s, id);
      PostKeepsLinks(s, id);
      PostKeepsRows(s, id);
      SettledAppend(s, JournalRows(id, s.journals[id]));
      PostKeepsSettled(s, id);
    }
  }

  lemma PostKeepsJournals(s: Books, id: nat)
    requires JournalsOk(s) && PostingRefusal(s, id).None?
    ensures JournalsOk(PostJournal(s, id).0)
  {
    hide JournalOk, PostingRefusal;
    var t := PostJournal(s, id).0;
    PostedIsThere(s, id);
    PostedJournalOk(s, id);
    SameRows(id, s.journals[id]);
    forall k | 0 <= k < |t.journals| ensures JournalOk(t.rows, t.journals[k], k) {
      if k != id { JournalOkAppend(s.rows, JournalRows(id, s.journals[id]), s.journals[k], k); }
    }
  }

  lemma PostedIsThere(s: Books, id: nat)
    requires PostingRefusal(s, id).None?
    ensures id < |s.journals|
  {
  }

  lemma PostKeepsLinks(s: Books, id: nat)
    requires LinksOk(s) && OneReversal(s) && PostingRefusal(s, id).None?
    ensures LinksOk(PostJournal(s, id).0) && OneReversal(PostJournal(s, id).0)
  {
    hide PostingRefusal, JournalRows, Swapped;
    var t := PostJournal(s, id).0;
    PostedIsThere(s, id);
    forall k | 0 <= k < |t.journals| ensures LinkOk(t.journals, k) {
      assert LinkOk(s.journals, k);
    }
  }

  /** What is settled depends on accounts, rows, periods and closings alone. */
  lemma PostKeepsSettled(s: Books, id: nat)
    requires PostingRefusal(s, id).None? && YearsSettled(s.(rows := s.rows + JournalRows(id, s.journals[id])))
    ensures YearsSettled(PostJournal(s, id).0)
  {
    hide PostingRefusal, JournalRows, Movement;
    PostedIsThere(s, id);
    var u := s.(rows := s.rows + JournalRows(id, s.journals[id]));
    forall c | c in s.closings ensures Settled(PostJournal(s, id).0, c.period) { assert Settled(u, c.period); }
  }

  lemma PostKeepsRows(s: Books, id: nat)
    requires RowsOk(s) && JournalsOk(s) && PostingRefusal(s, id).None?
    ensures RowsOk(PostJournal(s, id).0)
    ensures forall r :: r in JournalRows(id, s.journals[id]) ==> !ClosedOn(s.periods, r.date)
  {
    var j := s.journals[id];
    forall r | r in JournalRows(id, j)
      ensures Known(s.chart, r.account) && r.debit >= 0 && r.credit >= 0 && r.origin == FromJournal(id) && r.date == j.date
    {
      var i :| 0 <= i < |j.lines| && JournalRows(id, j)[i] == r;
      assert j.lines[i] in j.lines && LineAllowed(j.lines[i]) && LinePostable(s.chart, j.lines[i]);
    }
  }

  // ---- Reversing ----

  lemma SwappedSums(lines: seq<Line>, a: string)
    ensures Sum(Swapped(lines), LineDebit()) == Sum(lines, LineCredit())
    ensures Sum(Swapped(lines), LineCredit()) == Sum(lines, LineDebit())
    ensures Sum(Swapped(lines), LineNetOn(a)) == -Sum(lines, LineNetOn(a))
  {
    SumMap(lines, SwapLine(), LineDebit(), LineCredit());
    SumMap(lines, SwapLine(), LineCredit(), LineDebit());
    SumMap(lines, SwapLine(), LineNetOn(a), MinusLineNetOn(a));
    SumOpposite(lines, MinusLineNetOn(a), LineNetOn(a));
  }

  function MinusLineNetOn(a: string): Line -> int {
    (l: Line) => if l.account == a then l.credit - l.debit else 0
  }

  /** Once a reversal's context is valid, its draft always posts. */
  lemma ReversalPosts(s: Books, id: nat, date: int)
    requires Inv(s) && id < |s.journals| && s.journals[id].status.Posted?
    requires ValidateContext(s, date, Swapped(s.journals[id].lines)).None?
    ensures var draft := NewDraft(Reversing, date, s.journals[id].currency, Swapped(s.journals[id].lines), Some(id));
      CreateDraft(s, draft) == (s.(journals := s.journals + [draft]), Done(|s.journals|))
      && PostingRefusal(s.(journals := s.journals + [draft]), |s.journals|).None?
  {
    hide HasOrigin, ClosedOn, Usable, Known, Swapped, ValidateBalanced, LinksOk, OneReversal, YearsSettled, ReversalsPosted, Distinct;
    var source := s.journals[id];
    SwappedPostable(s, id, date);
    SwappedSums(source.lines, "");
    NoRowsAhead(s, |s.journals|);
  }

  lemma SwappedPostable(s: Books, id: nat, date: int)
    requires JournalsOk(s) && id < |s.journals| && s.journals[id].status.Posted?
    requires ValidateContext(s, date, Swapped(s.journals[id].lines)).None?
    ensures Sum(s.journals[id].lines, LineDebit()) == Sum(s.journals[id].lines, LineCredit()) > 0
    ensures Distinct(Swapped(s.journals[id].lines))
    ensures forall l :: l in Swapped(s.journals[id].lines) ==> LineAllowed(l) && LinePostable(s.chart, l)
  {
    hide HasOrigin, ClosedOn, ValidateBalanced;
    var source := s.journals[id];
    assert JournalOk(s.rows, source, id);
    var lines := Swapped(source.lines);
    SwappedDistinct(source.lines);
    forall l | l in lines ensures LineAllowed(l) && LinePostable(s.chart, l) {
      var i :| 0 <= i < |lines| && lines[i] == l;
      assert source.lines[i] in source.lines;
      assert Usable(s.chart, l.account);
    }
  }

  lemma SwappedDistinct(lines: seq<Line>)
    requires Distinct(lines)
    ensures Distinct(Swapped(lines))
  {
    forall i, j | 0 <= i < j < |lines| ensures Swapped(lines)[i] != Swapped(lines)[j] {
      assert SwapLine()(Swapped(lines)[i]) == lines[i] && SwapLine()(Swapped(lines)[j]) == lines[j];
    }
  }

  function ReversalDraft(s: Books, id: nat, date: int): Journal
    requires id < |s.journals|
  {
    NewDraft(Reversing, date, s.journals[id].currency, Swapped(s.journals[id].lines), Some(id))
  }

  lemma ReversalDraftSound(s: Books, id: nat, date: int)
    requires Inv(s) && id < |s.journals| && s.journals[id].status.Posted? && !AlreadyReversedIn(s.journals, id)
    ensures Sound(s.(journals := s.journals + [ReversalDraft(s, id, date)]))
  {
    hide Sum, Swapped;
    assert JournalOk(s.rows, s.journals[id], id);
    SwappedAllowed(s.journals[id].lines);
    NoRowsAhead(s, |s.journals|);
    NoneReversing(s, id);
    AppendJournal(s, ReversalDraft(s, id, date));
  }

  lemma ReverseKeeps(s: Books, id: nat, date: int)
    requires Inv(s)
    ensures Inv(Reverse(s, id, date).0)
  {
    hide Sound, ValidateContext, PostingRefusal, Swapped, AlreadyReversedIn;
    var t := Reverse(s, id, date).0;
    if t != s {
      var n := |s.journals|;
      var drafted := s.(journals := s.journals + [ReversalDraft(s, id, date)]);
      ReversalPosts(s, id, date);
      ReversalDraftSound(s, id, date);
      PostKeeps(drafted, n);
      var posted := PostJournal(drafted, n).0;
      assert t == posted.(journals := posted.journals[id := posted.journals[id].(reversedBy := Some(n))]);
      RelinkKeeps(posted, id, Some(n));
    }
  }

  lemma SwappedAllowed(lines: seq<Line>)
    requires forall l :: l in lines ==> LineAllowed(l)
    ensures forall l :: l in Swapped(lines) ==> LineAllowed(l)
  {
    forall l | l in Swapped(lines) ensures LineAllowed(l) {
      var i :| 0 <= i < |lines| && Swapped(lines)[i] == l;
      assert lines[i] in lines;
    }
  }

  lemma NoneReversing(s: Books, id: nat)
    requires ReversalsPosted(s) && !AlreadyReversedIn(s.journals, id)
    ensures !exists i :: 0 <= i < |s.journals| && Reverses(s.journals[i], id)
  {
    forall i | 0 <= i < |s.journals| ensures !Reverses(s.journals[i], id) {
      assert s.journals[i] in s.journals;
    }
  }

  lemma RelinkKeeps(s: Books, id: nat, reversal: Option<nat>)
    requires Inv(s) && id < |s.journals|
    ensures Inv(s.(journals := s.journals[id := s.journals[id].(reversedBy := reversal)]))
  {
    hide JournalOk, Movement, ChartOk, Swapped;
    var t := s.(journals := s.journals[id := s.journals[id].(reversedBy := reversal)]);
    RelinkJournalOk(s.rows, s.journals[id], id, reversal);
    forall k | 0 <= k < |t.journals| ensures JournalOk(t.rows, t.journals[k], k) && LinkOk(t.journals, k) {
      assert JournalOk(s.rows, s.journals[k], k) && LinkOk(s.journals, k);
    }
  }

  lemma RelinkJournalOk(rows: seq<Row>, j: Journal, id: nat, reversal: Option<nat>)
    ensures JournalOk(rows, j.(reversedBy := reversal), id) == JournalOk(rows, j, id)
  {
  }

  lemma AdjustKeeps(s: Books, id: nat, date: int, lines: seq<Line>, autoPost: bool)
    requires Inv(s)
    ensures Inv(Adjust(s, id, date, lines, autoPost).0)
  {
    if id < |s.journals| {
      var draft := NewDraft(Adjusting, date, s.journals[id].currency, lines, Some(id));
      DraftKeeps(s, draft);
      PostKeeps(CreateDraft(s, draft).0, |s.journals|);
    }
  }
}
