/** Reversal chains over every run of operations. */
module Reversals {
  import opened Wrappers
  import opened Sums
  import opened Money
  import opened Accounts
  import opened Ledger
  import opened Posting
  import opened FiscalCalendar
  import opened Reports
  import opened Books
  import opened BookInvariants
  import opened YearClose
  import opened BookRuns

  /** Each journal of the path is reversed by the next. */
  ghost predicate ReversalPath(journals: seq<Journal>, path: seq<nat>) {
    && path != []
    && (forall i :: 0 <= i < |path| ==> path[i] < |journals|)
    && forall i :: 0 <= i < |path| - 1 ==> Reverses(journals[path[i + 1]], path[i])
  }

  lemma {:induction false} PathAscends(s: Books, path: seq<nat>, i: nat, j: nat)
    requires LinksOk(s) && ReversalPath(s.journals, path) && i < j < |path|
    ensures path[i] < path[j]
    decreases j - i
  {
    assert LinkOk(s.journals, path[j]);
    assert Reverses(s.journals[path[j - 1 + 1]], path[j - 1]);
    if i < j - 1 { PathAscends(s, path, i, j - 1); }
  }

  /** After any run, no journal is reached again by following reversals. */
  lemma ReversalsNeverCycle(s: Books, steps: seq<Step>, path: seq<nat>)
    requires Inv(s) && ReversalPath(Run(s, steps).journals, path)
    ensures forall i, j :: 0 <= i < j < |path| ==> path[i] != path[j]
  {
    hide Run;
    RunKeeps(s, steps);
    forall i: nat, j: nat | i < j < |path| ensures path[i] != path[j] {
      PathAscends(Run(s, steps), path, i, j);
    }
  }

  /** After any run, two different journals never reverse the same one. */
  lemma AtMostOneReversal(s: Books, steps: seq<Step>, i: nat, j: nat, k: nat)
    requires Inv(s)
    ensures var journals := Run(s, steps).journals;
      i < |journals| && j < |journals| && Reverses(journals[i], k) && Reverses(journals[j], k) ==> i == j
  {
    hide Run;
    RunKeeps(s, steps);
  }

  // ---- The effect of a chain ----

  /** The movement of one account by the journals on the path. */
  function RowNetOfPath(account: string, path: seq<nat>): Row -> int {
    (r: Row) =>
      if r.account == account && r.origin.FromJournal? && r.origin.journal in path then r.debit - r.credit else 0
  }

  lemma PathStep(path: seq<nat>, n: nat, id: nat)
    requires n < |path|
    ensures id in path[..n + 1] <==> id in path[..n] || id == path[n]
  {
    if id in path[..n] {
      var i :| 0 <= i < n && path[..n][i] == id;
      assert path[..n + 1][i] == id;
    }
    if id == path[n] { assert path[..n + 1][n] == id; }
    if id in path[..n + 1] {
      var i :| 0 <= i <= n && path[..n + 1][i] == id;
      if i < n { assert path[..n][i] == id; }
    }
  }

  lemma ReversalLines(s: Books, path: seq<nat>, i: nat, account: string)
    requires LinksOk(s) && ReversalPath(s.journals, path) && i + 1 < |path|
    ensures Sum(s.journals[path[i + 1]].lines, LineNetOn(account)) == -Sum(s.journals[path[i]].lines, LineNetOn(account))
  {
    assert Reverses(s.journals[path[i + 1]], path[i]) && LinkOk(s.journals, path[i + 1]);
    SwappedSums(s.journals[path[i]].lines, account);
  }

  lemma {:induction false} LinesAlternate(s: Books, path: seq<nat>, n: nat, account: string)
    requires LinksOk(s) && ReversalPath(s.journals, path) && n < |path|
    ensures Sum(s.journals[path[n]].lines, LineNetOn(account))
      == (if n % 2 == 0 then 1 else -1) * Sum(s.journals[path[0]].lines, LineNetOn(account))
  {
    if n > 0 {
      LinesAlternate(s, path, n - 1, account);
      ReversalLines(s, path, n - 1, account);
    }
  }

  lemma JournalRowsNet(s: Books, id: nat, account: string)
    requires JournalsOk(s) && id < |s.journals| && s.journals[id].status.Posted?
    ensures Sum(s.rows, RowNetOfJournal(account, id)) == Sum(s.journals[id].lines, LineNetOn(account))
  {
    assert JournalOk(s.rows, s.journals[id], id);
  }

  lemma PathPosted(s: Books, path: seq<nat>, n: nat)
    requires Inv(s) && ReversalPath(s.journals, path) && n < |path|
    requires s.journals[path[0]].status.Posted?
    ensures s.journals[path[n]].status.Posted?
  {
    if n > 0 {
      assert Reverses(s.journals[path[n - 1 + 1]], path[n - 1]);
    }
  }

  lemma {:induction false} PrefixNet(s: Books, path: seq<nat>, n: nat, account: string)
    requires Inv(s) && ReversalPath(s.journals, path) && n <= |path|
    requires s.journals[path[0]].status.Posted?
    ensures Sum(s.rows, RowNetOfPath(account, path[..n]))
      == if n % 2 == 1 then Sum(s.journals[path[0]].lines, LineNetOn(account)) else 0
  {
    hide Inv, ReversalPath;
    if n == 0 {
      SumZero(s.rows, RowNetOfPath(account, path[..0]));
    } else {
      var k := n - 1;
      PrefixNet(s, path, k, account);
      PathIndex(s, path, k);
      NotEarlier(s, path, k);
      var f, g, h := RowNetOfPath(account, path[..k]), RowNetOfJournal(account, path[k]), RowNetOfPath(account, path[..n]);
      forall r | r in s.rows ensures h(r) == f(r) + g(r) {
        if r.origin.FromJournal? { PathStep(path, k, r.origin.journal); }
      }
      SumAdd(s.rows, f, g, h);
      PathPosted(s, path, k);
      InvParts(s);
      JournalRowsNet(s, path[k], account);
      LinesAlternate(s, path, k, account);
    }
  }

  lemma InvParts(s: Books)
    requires Inv(s)
    ensures JournalsOk(s) && LinksOk(s)
  {
  }

  lemma PathIndex(s: Books, path: seq<nat>, k: nat)
    requires ReversalPath(s.journals, path) && k < |path|
    ensures path[k] < |s.journals|
  {
  }

  lemma NotEarlier(s: Books, path: seq<nat>, k: nat)
    requires Inv(s) && ReversalPath(s.journals, path) && k < |path|
    ensures path[k] !in path[..k]
  {
    forall i: nat | i < k ensures path[i] != path[k] {
      PathAscends(s, path, i, k);
    }
  }

  /**
   After any run, a posted journal together with its chain of reversals moves
   each account by the original amount when the number of reversals is even,
   and not at all when it is odd.
   */
  lemma ChainAlternates(s: Books, steps: seq<Step>, path: seq<nat>, account: string)
    requires Inv(s) && ReversalPath(Run(s, steps).journals, path)
    requires Run(s, steps).journals[path[0]].status.Posted?
    ensures var t := Run(s, steps);
      Sum(t.rows, RowNetOfPath(account, path))
      == if |path| % 2 == 1 then Sum(t.rows, RowNetOfJournal(account, path[0])) else 0
  {
    hide Run, Inv;
    RunKeeps(s, steps);
    var t := Run(s, steps);
    PrefixNet(t, path, |path|, account);
    assert path[..|path|] == path;
    InvParts(t);
    JournalRowsNet(t, path[0], account);
  }

  // ---- Reversed once ----

  /** Journals keep their kind, source and lines, and posted ones their status. */
  ghost predicate JournalsEvolve(s: seq<Journal>, t: seq<Journal>) {
    && |s| <= |t|
    && forall i :: 0 <= i < |s| ==>
         && t[i].kind == s[i].kind && t[i].source == s[i].source && t[i].lines == s[i].lines
         && (s[i].status.Posted? ==> t[i].status.Posted?)
  }

  lemma PostEvolves(s: Books, id: nat)
    ensures JournalsEvolve(s.journals, PostJournal(s, id).0.journals)
  {
    assert PostingRefusal(s, id).None? ==> id < |s.journals|;
  }

  lemma DraftAndPostEvolves(s: Books, draft: Journal)
    ensures JournalsEvolve(s.journals, DraftAndPost(s, draft).0.journals)
  {
    hide PostJournal;
    PostEvolves(CreateDraft(s, draft).0, |s.journals|);
  }

  lemma ApplyEvolves(s: Books, step: Step)
    ensures JournalsEvolve(s.journals, Apply(s, step).journals)
  {
    hide DocumentRows, PostJournal, DraftAndPost, Reverse, CloseYear, FiscalPeriodForDate, ValidateContext;
    match step
    case PostStep(id) => PostEvolves(s, id);
    case ReverseStep(id, date) => ReverseEvolves(s, id, date);
    case AdjustStep(id, date, lines, autoPost) =>
      if id < |s.journals| {
        DraftAndPostEvolves(s, NewDraft(Adjusting, date, s.journals[id].currency, lines, Some(id)));
      }
    case CloseStep(p, currency) => CloseEvolves(s, p, currency);
    case _ =>
  }

  lemma CloseEvolves(s: Books, p: nat, currency: string)
    ensures JournalsEvolve(s.journals, CloseYear(s, p, currency).0.journals)
  {
    hide PostJournal, CarryForward, CreateDraft, PeriodBalances, ClosingLines, NetIncome, JournalsEvolve;
    EvolvesItself(s.journals);
    if CloseRefusal(s, p).None? {
      var period, retained := s.periods[p], FindRetained(s.chart).value.id;
      var draft := NewDraft(Closing, period.end, currency, ClosingLines(PeriodBalances(s, period), retained), None);
      DraftEvolves(s, draft);
      var drafted := CreateDraft(s, draft).0;
      PostEvolves(drafted, |s.journals|);
      EvolvesOn(s.journals, drafted.journals, PostJournal(drafted, |s.journals|).0.journals);
      var posted := PostClosing(s, period, retained, currency).0;
      if p < |posted.periods| {
        var net := NetIncome(PeriodBalances(s, period));
        CarryEvolves(posted, p, currency, net, |s.journals|);
        EvolvesOn(s.journals, posted.journals, CarryForward(posted, p, currency, net, |s.journals|).0.journals);
      }
    }
  }

  lemma DraftEvolves(s: Books, draft: Journal)
    ensures JournalsEvolve(s.journals, CreateDraft(s, draft).0.journals)
  {
  }

  lemma CarryEvolves(s: Books, p: nat, currency: string, netIncome: int, closing: nat)
    requires p < |s.periods|
    ensures JournalsEvolve(s.journals, CarryForward(s, p, currency, netIncome, closing).0.journals)
  {
    hide OpeningLines, NextFiscalPeriod;
  }

  lemma EvolvesItself(js: seq<Journal>)
    ensures JournalsEvolve(js, js)
  {
  }

  lemma EvolvesOn(a: seq<Journal>, b: seq<Journal>, c: seq<Journal>)
    requires JournalsEvolve(a, b) && JournalsEvolve(b, c)
    ensures JournalsEvolve(a, c)
  {
    forall i | 0 <= i < |a|
      ensures c[i].kind == a[i].kind && c[i].source == a[i].source && c[i].lines == a[i].lines
      ensures a[i].status.Posted? ==> c[i].status.Posted?
    {
      assert b[i].kind == a[i].kind && c[i].kind == b[i].kind;
    }
  }

  /** A reversal that was posted links its source; one that was not leaves it. */
  lemma ReverseEvolves(s: Books, id: nat, date: int)
    ensures JournalsEvolve(s.journals, Reverse(s, id, date).0.journals)
  {
    hide PostJournal, DraftAndPost, ValidateContext, AlreadyReversedIn;
    if id < |s.journals| {
      DraftAndPostEvolves(s, NewDraft(Reversing, date, s.journals[id].currency, Swapped(s.journals[id].lines), Some(id)));
    }
  }

  lemma {:induction false} RunEvolves(s: Books, steps: seq<Step>)
    ensures JournalsEvolve(s.journals, Run(s, steps).journals)
  {
    hide Apply;
    if steps != [] {
      RunEvolves(s, steps[..|steps| - 1]);
      ApplyEvolves(Run(s, steps[..|steps| - 1]), steps[|steps| - 1]);
    }
  }

  /** Once a journal has been reversed, every later attempt is refused and changes nothing. */
  lemma ReversedOnce(s: Books, id: nat, date: int, steps: seq<Step>, again: int)
    requires Inv(s) && Reverse(s, id, date).1.Done?
    ensures var t := Run(Reverse(s, id, date).0, steps);
      Reverse(t, id, again) == (t, Refused(AlreadyReversed))
  {
    hide Run, PostingRefusal, ValidateContext;
    var u := Reverse(s, id, date).0;
    ReverseLeaves(s, id, date);
    RunEvolves(u, steps);
    var t := Run(u, steps);
    var n := |s.journals|;
    assert t.journals[n] in t.journals && Reverses(t.journals[n], id);
  }

  lemma ReverseLeaves(s: Books, id: nat, date: int)
    requires Inv(s) && Reverse(s, id, date).1.Done?
    ensures var u := Reverse(s, id, date).0;
      && id < |s.journals| < |u.journals|
      && u.journals[id].status.Posted? && u.journals[id].reversedBy == Some(|s.journals|)
      && Reverses(u.journals[|s.journals|], id) && u.journals[|s.journals|].status.Posted?
  {
    hide Inv;
  }

  // ---- What a reversal and an adjustment post ----

  /**
   All that changes: a new last journal of this kind with these lines, posted or not, in the
   currency of the journal it names; its lines as rows when it is posted; and the link back
   to it when it reverses that journal.
   */
  ghost predicate Adds(s: Books, t: Books, kind: EntryType, id: nat, date: int, lines: seq<Line>, posted: bool)
    requires id < |s.journals|
  {
    var (n, k, currency) := (|s.journals|, |s.rows|, s.journals[id].currency);
    && t == s.(rows := t.rows, journals := t.journals) && |t.journals| == n + 1
    && t.journals[n] == Journal(kind, date, currency, lines, Sum(lines, LineDebit()), Sum(lines, LineCredit()),
                                if posted then Posted else Draft, Some(id), None)
    && (forall i :: 0 <= i < n ==>
          t.journals[i] == if kind == Reversing && i == id then s.journals[i].(reversedBy := Some(n)) else s.journals[i])
    && |t.rows| == k + (if posted then |lines| else 0) && t.rows[..k] == s.rows
    && (posted ==> forall i :: 0 <= i < |lines| ==>
          t.rows[k + i] == Row(lines[i].account, date, lines[i].debit, lines[i].credit, currency, NoBase, FromJournal(n)))
  }

  lemma DraftAndPostAdds(s: Books, kind: EntryType, id: nat, date: int, lines: seq<Line>)
    requires id < |s.journals| && kind != Reversing
    requires DraftAndPost(s, NewDraft(kind, date, s.journals[id].currency, lines, Some(id))).1.Done?
    ensures Adds(s, DraftAndPost(s, NewDraft(kind, date, s.journals[id].currency, lines, Some(id))).0, kind, id, date, lines, true)
  {
    hide PostingRefusal, JournalRows, Sum;
    var draft := NewDraft(kind, date, s.journals[id].currency, lines, Some(id));
    PostedRowsAre(CreateDraft(s, draft).0, |s.journals|);
  }

  /** A completed reversal posts its journal's lines with the sides swapped, and changes nothing but the link to it. */
  lemma ReversePosts(s: Books, id: nat, date: int)
    requires Reverse(s, id, date).1.Done?
    ensures id < |s.journals|
    ensures var (lines, swapped) := (s.journals[id].lines, Swapped(s.journals[id].lines));
      && Adds(s, Reverse(s, id, date).0, Reversing, id, date, swapped, true)
      && |swapped| == |lines|
      && forall i :: 0 <= i < |lines| ==> swapped[i] == Line(lines[i].account, lines[i].credit, lines[i].debit)
  {
    hide ValidateContext, JournalRows, PostingRefusal, Sum, Swapped, AlreadyReversedIn;
    var draft := NewDraft(Reversing, date, s.journals[id].currency, Swapped(s.journals[id].lines), Some(id));
    PostedRowsAre(CreateDraft(s, draft).0, |s.journals|);
    SwappedLines(s.journals[id].lines);
  }

  lemma SwappedLines(lines: seq<Line>)
    ensures |Swapped(lines)| == |lines|
    ensures forall i :: 0 <= i < |lines| ==> Swapped(lines)[i] == Line(lines[i].account, lines[i].credit, lines[i].debit)
  {
  }

  /** A completed adjustment posts its lines, or keeps them as a draft when it is not to be posted. */
  lemma AdjustPosts(s: Books, id: nat, date: int, lines: seq<Line>, autoPost: bool)
    requires Adjust(s, id, date, lines, autoPost).1.Done?
    ensures id < |s.journals| && Adds(s, Adjust(s, id, date, lines, autoPost).0, Adjusting, id, date, lines, autoPost)
  {
    hide DraftAndPost, ValidateContext, JournalRows, Sum;
    if autoPost { DraftAndPostAdds(s, Adjusting, id, date, lines); } else { assert s.rows + [] == s.rows; }
  }
}
