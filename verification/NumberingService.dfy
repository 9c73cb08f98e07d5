/** Document numbering as the service runs it: one sequence row, rewritten in place. */
module NumberingService {
  import opened Wrappers
  import opened NumberFormat
  import opened NumberSequence

  class DocumentNumbering {
    var prefix: string
    var startingNumber: nat
    var nextNumber: nat
    var padding: nat
    var suffix: string
    var invoicePrefix: string
    var invoices: seq<string>

    function State(): State
      reads this
    {
      NumberSequence.State(Sequence(prefix, startingNumber, nextNumber, padding, suffix), invoicePrefix, invoices)
    }

    /** Seeds a new company: no invoices, and the preferred prefix from number one. The table refuses longer prefixes. */
    constructor (setting: string)
      requires |Preferred(setting)| <= PREFIX_MAX_LENGTH
      ensures State() == NumberSequence.State(Sequence(Preferred(setting), 1, 1, 6, ""), setting, [])
    {
      prefix, startingNumber, nextNumber, padding, suffix := Preferred(setting), 1, 1, 6, "";
      invoicePrefix, invoices := setting, [];
    }

    /** The last live invoice with the greatest number under the prefix, and the least number still allowed. */
    method GetInvoiceNumberingContext(prefix: string) returns (lastIssued: Option<string>, minNext: nat)
      ensures minNext == MaxIssued(invoices, prefix) + 1
      ensures lastIssued.None? <==> forall no :: no in invoices ==> Extract(no, prefix).None?
      ensures lastIssued.Some? ==>
        exists i :: 0 <= i < |invoices| && invoices[i] == lastIssued.value
          && Extract(invoices[i], prefix) == Some(minNext - 1)
          && forall j :: i < j < |invoices| ==> Extract(invoices[j], prefix) != Some(minNext - 1)
    {
      hide Extract;
      var max := 0;
      lastIssued := None;
      ghost var at := 0;
      for i := 0 to |invoices|
        invariant max == MaxIssued(invoices[..i], prefix)
        invariant lastIssued.None? ==> max == 0 && forall j :: 0 <= j < i ==> Extract(invoices[j], prefix).None?
        invariant lastIssued.Some? ==>
          at < i && invoices[at] == lastIssued.value && Extract(invoices[at], prefix) == Some(max)
        invariant lastIssued.Some? ==> forall j :: at < j < i ==> Extract(invoices[j], prefix) != Some(max)
      {
        assert invoices[..i + 1][..i] == invoices[..i];
        MaxIssuedIsMaximum(invoices[..i], prefix);
        assert forall j :: 0 <= j < i ==> invoices[j] in invoices[..i];
        ExtractPlausible(invoices[i], prefix);
        var n := Extract(invoices[i], prefix);
        if n.Some? && n.value >= max {
          max, lastIssued, at := n.value, Some(invoices[i]), i;
        }
      }
      assert invoices[..|invoices|] == invoices;
      minNext := max + 1;
    }

    /** Rebuilds the row from the issued invoices; false where the table refuses the prefix. */
    method RepairInvoiceDocumentSequence() returns (ok: bool)
      modifies this
      ensures ok <==> Repair(old(State())).Some?
      ensures State() == if ok then Repair(old(State())).value else old(State())
    {
      hide MaxIssued, Preferred;
      var preferred := Preferred(invoicePrefix);
      ok := |preferred| <= PREFIX_MAX_LENGTH;
      if ok {
        var _, least := GetInvoiceNumberingContext(preferred);
        if !Plausible(startingNumber) { startingNumber := 1; }
        if padding > PADDING_MAX { padding := 6; }
        prefix, nextNumber, suffix := preferred, least, "";
      }
    }

    method EnsureDocumentSequence() returns (ok: bool)
      modifies this
      ensures ok <==> Ensure(old(State())).Some?
      ensures State() == if ok then Ensure(old(State())).value else old(State())
    {
      ok := true;
      if Corrupt(State().sequence) { ok := RepairInvoiceDocumentSequence(); }
    }

    /** Collects every violation in field order. */
    static method ValidateDocumentSequenceUpdate(
        prefix: string, starting: int, next: int, padding: int, suffix: string, minNext: int)
      returns (errors: seq<UpdateError>)
      ensures errors == Errors(prefix, starting, next, padding, suffix, minNext)
    {
      hide Trim, Plausible;
      errors := [];
      var trimmed := Trim(prefix);
      if trimmed == "" {
        errors := errors + [PrefixRequired];
      } else if |trimmed| > PREFIX_MAX_LENGTH {
        errors := errors + [PrefixTooLong];
      } else if LeadingRun(trimmed) == |trimmed| {
        errors := errors + [PrefixOnlyDigits];
      }
      assert errors == PrefixErrors(prefix);
      ghost var sofar := errors;
      if !Plausible(starting) { errors := errors + [StartingOutOfRange]; }
      assert errors == sofar + StartingErrors(starting);
      sofar := errors;
      if !Plausible(next) {
        errors := errors + [NextOutOfRange];
      } else if Plausible(minNext) && next < minNext {
        errors := errors + [NextBelowIssued];
      }
      assert errors == sofar + NextErrors(next, minNext);
      sofar := errors;
      if !(0 <= padding <= PADDING_MAX) { errors := errors + [PaddingOutOfRange]; }
      assert errors == sofar + PaddingErrors(padding);
      if |suffix| > SUFFIX_MAX_LENGTH { errors := errors + [SuffixTooLong]; }
    }

    method UpdateDocumentSequence(input: UpdateInput) returns (outcome: Outcome)
      modifies this
      ensures (State(), outcome) == Take(old(State()), ChangeSettings(input))
    {
      hide MaxIssued, Trim, Corrupt, Errors, Repair;
      var ok := EnsureDocumentSequence();
      if !ok { return Refused; }
      var newPrefix := OrElse(input.prefix, prefix);
      var _, least := GetInvoiceNumberingContext(newPrefix);
      var safeMin := if Plausible(least) then least else 1;
      var starting, next := OrElse(input.starting, startingNumber), OrElse(input.next, nextNumber);
      var width, tail := OrElse(input.padding, padding), OrElse(input.suffix, suffix);
      var errors := ValidateDocumentSequenceUpdate(newPrefix, starting, next, width, tail, safeMin);
      if errors != [] { return Invalid(errors); }
      AcceptedValues(newPrefix, starting, next, width, tail, safeMin);
      prefix, startingNumber, nextNumber, padding, suffix := Trim(newPrefix), starting, next, width, tail;
      outcome := Done;
    }

    method ResetDocumentSequenceToDefault() returns (outcome: Outcome)
      modifies this
      ensures (State(), outcome) == Take(old(State()), ResetToDefault)
    {
      var ok := RepairInvoiceDocumentSequence();
      outcome := if ok then Done else Refused;
    }

    /** Takes the next number and, when the invoice is saved, stores it unless the number is taken. */
    method AllocateDocumentNumber(stored: bool) returns (outcome: Outcome)
      modifies this
      ensures (State(), outcome) == Take(old(State()), IssueNext(stored))
    {
      hide MaxIssued, Corrupt, Repair, DbFormat;
      var ok := EnsureDocumentSequence();
      if !ok { return Refused; }
      var no := DbFormat(prefix, nextNumber, padding, suffix);
      nextNumber := nextNumber + 1;
      if stored && no !in invoices { invoices := invoices + [no]; }
      outcome := Issued(no);
    }
  }
}
