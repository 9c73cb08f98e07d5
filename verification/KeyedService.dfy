/** The two idempotent posting functions, write by write over the tables. */
module KeyedService {
  import opened Wrappers
  import opened Sums
  import opened Ledger
  import opened Posting
  import opened Books
  import opened KeyedJournals
  import opened ExactlyOnce
  import opened LedgerService

  class KeyedTables {
    const ledger: LedgerTables
    var keys: map<string, nat>

    constructor (ledger: LedgerTables)
      ensures this.ledger == ledger && State() == Keyed(ledger.State(), map[])
    {
      this.ledger := ledger;
      keys := map[];
    }

    function State(): Keyed
      reads this, ledger
    {
      Keyed(ledger.State(), keys)
    }

    /** One write to the journal tables; the ledger itself is written by the last one only. */
    method Put(key: string, id: nat, r: Request, w: Write) returns (refusal: Option<Refusal>)
      modifies this`keys, ledger`journals, ledger`rows
      ensures (State(), refusal) == Perform(old(State()), key, id, r, w)
    {
      hide PostJournal, Wanted;
      var want := Wanted(r);
      refusal := None;
      if w.InsertHeader? {
        if want.totalDebit < 0 || want.totalCredit < 0 { return Some(ConstraintViolated); }
        keys := keys[key := |ledger.journals|];
        ledger.journals := ledger.journals + [want.(lines := [])];
        return;
      }
      if id >= |ledger.journals| { return Some(NotFound); }
      match w {
        case UpdateHeader =>
          if want.totalDebit < 0 || want.totalCredit < 0 { return Some(ConstraintViolated); }
          ledger.journals := ledger.journals[id := Rewritten(ledger.journals[id], r)];
        case DeleteLines =>
          ledger.journals := ledger.journals[id := ledger.journals[id].(lines := [])];
        case InsertLines =>
          if exists l :: l in want.lines && !LineAllowed(l) { return Some(ConstraintViolated); }
          var j := ledger.journals[id];
          ledger.journals := ledger.journals[id := j.(lines := j.lines + want.lines)];
        case PostEntry =>
          var outcome := ledger.PostJournalEntry(id);
          if outcome.Refused? { return Some(outcome.why); }
      }
    }

    /** Acknowledges, refuses, or performs the writes one after another until the budget runs out. */
    method Post(key: string, r: Request, budget: nat) returns (attempt: Attempt)
      modifies this`keys, ledger`journals, ledger`rows
      ensures (State(), attempt) == TryPost(old(State()), key, r, budget)
    {
      hide Perform, CheckRequest;
      var refusal := CheckRequest(r);
      if refusal.Some? { return Failed(refusal.value); }
      var drafted := key in keys;
      if PostedUnder(State(), key) {
        var same := multiset(ledger.journals[keys[key]].lines) == multiset(Wanted(r).lines);
        return if same then Unchanged(keys[key]) else Failed(Changed);
      }
      var id := if drafted then keys[key] else |ledger.journals|;
      var writes, left := Writes(r, drafted), budget;
      while writes != []
        invariant Execute(State(), key, id, r, writes, left) == Execute(old(State()), key, id, r, Writes(r, drafted), budget)
        decreases |writes|
      {
        if left == 0 { return Crashed; }
        ExecuteFirst(State(), key, id, r, writes, left);
        var stopped := Put(key, id, r, writes[0]);
        if stopped.Some? { return Failed(stopped.value); }
        writes, left := writes[1..], left - 1;
      }
      attempt := Completed(id);
    }

    method PostIdempotentOpeningBalance(key: string, date: int, currency: string, lines: seq<Line>, budget: nat)
      returns (attempt: Attempt)
      modifies this`keys, ledger`journals, ledger`rows
      ensures (State(), attempt) == TryPost(old(State()), key, OpeningRequest(date, currency, lines), budget)
    {
      attempt := Post(key, OpeningRequest(date, currency, lines), budget);
    }

    method PostIdempotentTransferJournal(key: string, date: int, from: string, to: string, amount: int, budget: nat)
      returns (attempt: Attempt)
      modifies this`keys, ledger`journals, ledger`rows
      ensures (State(), attempt) == TryPost(old(State()), key, TransferRequest(date, from, to, amount), budget)
    {
      attempt := Post(key, TransferRequest(date, from, to, amount), budget);
    }
  }
}
