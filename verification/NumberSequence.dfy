/** The invoice number sequence: allocation, settings changes, repair and reset. */
module NumberSequence {
  import opened Wrappers
  import opened NumberFormat

  const PREFIX_MAX_LENGTH := 20
  const PADDING_MAX := 10
  const SUFFIX_MAX_LENGTH := 20

  datatype Sequence = Sequence(prefix: string, starting: nat, next: nat, padding: nat, suffix: string)

  /** The company's sequence row, its preferred prefix setting and its live invoice numbers. */
  datatype State = State(sequence: Sequence, setting: string, live: seq<string>)

  datatype UpdateInput = UpdateInput(
    prefix: Option<string>, starting: Option<int>, next: Option<int>, padding: Option<int>, suffix: Option<string>)

  datatype UpdateError =
    | PrefixRequired | PrefixTooLong | PrefixOnlyDigits
    | StartingOutOfRange | NextOutOfRange | NextBelowIssued
    | PaddingOutOfRange | SuffixTooLong

  /** What the table's own CHECK constraints guarantee. */
  predicate Stored(q: Sequence) {
    q.next >= 1 && q.starting >= 1 && q.padding <= PADDING_MAX && 1 <= |q.prefix| <= PREFIX_MAX_LENGTH
  }

  function Preferred(setting: string): string {
    var p := Trim(setting);
    if p == [] then "INV-" else p
  }

  predicate Corrupt(q: Sequence) {
    !Plausible(q.next) || !Plausible(q.starting) || "ZAT" <= Upper(Trim(q.prefix))
  }

  /** The greatest number among the live invoices that carry the prefix; 0 without any. */
  function MaxIssued(live: seq<string>, prefix: string): nat {
    if live == [] then 0
    else
      var rest := MaxIssued(live[..|live| - 1], prefix);
      match Extract(live[|live| - 1], prefix)
      case None => rest
      case Some(n) => if n >= rest then n else rest
  }

  function Repaired(s: State): Sequence {
    var q := s.sequence;
    var prefix := Preferred(s.setting);
    Sequence(prefix,
             if Plausible(q.starting) then q.starting else 1,
             MaxIssued(s.live, prefix) + 1,
             if q.padding <= PADDING_MAX then q.padding else 6,
             "")
  }

  /** None where the table refuses the row and saving the sequence throws. */
  function Repair(s: State): Option<State> {
    if |Preferred(s.setting)| > PREFIX_MAX_LENGTH then None else Some(s.(sequence := Repaired(s)))
  }

  function Ensure(s: State): Option<State> {
    if Corrupt(s.sequence) then Repair(s) else Some(s)
  }

  // ---- updateDocumentSequence ----

  function OrElse<T>(given: Option<T>, existing: T): T {
    match given
    case Some(x) => x
    case None => existing
  }

  function PrefixErrors(prefix: string): seq<UpdateError> {
    var p := Trim(prefix);
    if p == [] then [PrefixRequired]
    else if |p| > PREFIX_MAX_LENGTH then [PrefixTooLong]
    else if LeadingRun(p) == |p| then [PrefixOnlyDigits]
    else []
  }

  function StartingErrors(starting: int): seq<UpdateError> {
    if Plausible(starting) then [] else [StartingOutOfRange]
  }

  function NextErrors(next: int, floor: int): seq<UpdateError> {
    if !Plausible(next) then [NextOutOfRange]
    else if Plausible(floor) && next < floor then [NextBelowIssued]
    else []
  }

  function PaddingErrors(padding: int): seq<UpdateError> {
    if 0 <= padding <= PADDING_MAX then [] else [PaddingOutOfRange]
  }

  function SuffixErrors(suffix: string): seq<UpdateError> {
    if |suffix| > SUFFIX_MAX_LENGTH then [SuffixTooLong] else []
  }

  function Errors(prefix: string, starting: int, next: int, padding: int, suffix: string, floor: int)
    : seq<UpdateError>
  {
    PrefixErrors(prefix) + StartingErrors(starting) + NextErrors(next, floor) + PaddingErrors(padding)
    + SuffixErrors(suffix)
  }

  /** The validation passes exactly when every field is in range and the next number is not below the floor. */
  lemma AcceptedValues(prefix: string, starting: int, next: int, padding: int, suffix: string, floor: int)
    ensures Errors(prefix, starting, next, padding, suffix, floor) == []
      <==> && 1 <= |Trim(prefix)| <= PREFIX_MAX_LENGTH && !AllDigits(Trim(prefix))
           && Plausible(starting) && Plausible(next) && (Plausible(floor) ==> next >= floor)
           && 0 <= padding <= PADDING_MAX && |suffix| <= SUFFIX_MAX_LENGTH
  {
    hide Trim;
    var p := Trim(prefix);
    assert LeadingRun(p) == |p| <==> AllDigits(p);
  }

  function SafeMin(live: seq<string>, prefix: string): nat {
    var least := MaxIssued(live, prefix) + 1;
    if Plausible(least) then least else 1
  }

  function Update(s: State, input: UpdateInput): (State, seq<UpdateError>) {
    var q := s.sequence;
    var prefix := OrElse(input.prefix, q.prefix);
    var starting := OrElse(input.starting, q.starting);
    var next := OrElse(input.next, q.next);
    var padding := OrElse(input.padding, q.padding);
    var suffix := OrElse(input.suffix, q.suffix);
    var errors := Errors(prefix, starting, next, padding, suffix, SafeMin(s.live, prefix));
    if errors != [] then (s, errors)
    else (s.(sequence := Sequence(Trim(prefix), starting, next, padding, suffix)), [])
  }

  // ---- allocateDocumentNumber ----

  function NextNumber(q: Sequence): string { DbFormat(q.prefix, q.next, q.padding, q.suffix) }

  /** The sequence moves on; the invoice is stored under the number unless a live one already has it. */
  function Allocate(s: State, stored: bool): State {
    var no := NextNumber(s.sequence);
    State(s.sequence.(next := s.sequence.next + 1), s.setting,
          if stored && no !in s.live then s.live + [no] else s.live)
  }

  function Without(live: seq<string>, no: string): (rest: seq<string>)
    ensures forall x :: x in rest <==> x in live && x != no
  {
    if live == [] then []
    else
      var last := live[|live| - 1];
      assert live == live[..|live| - 1] + [last];
      Without(live[..|live| - 1], no) + (if last == no then [] else [last])
  }

  // ---- Runs ----

  datatype Step =
    | IssueNext(stored: bool)
    | ChangeSettings(input: UpdateInput)
    | ResetToDefault
    | PreferPrefix(setting: string)
    | DeleteInvoice(no: string)
    | EnterByHand(no: string)

  datatype Outcome = Done | Refused | Invalid(errors: seq<UpdateError>) | Issued(no: string)

  function Take(s: State, step: Step): (State, Outcome) {
    match step
    case IssueNext(stored) =>
      (match Ensure(s)
       case None => (s, Refused)
       case Some(e) => (Allocate(e, stored), Issued(NextNumber(e.sequence))))
    case ChangeSettings(input) =>
      (match Ensure(s)
       case None => (s, Refused)
       case Some(e) =>
         var (after, errors) := Update(e, input);
         (after, if errors == [] then Done else Invalid(errors)))
    case ResetToDefault =>
      (match Repair(s)
       case None => (s, Refused)
       case Some(e) => (e, Done))
    case PreferPrefix(setting) => (s.(setting := setting), Done)
    case DeleteInvoice(no) => (s.(live := Without(s.live, no)), Done)
    case EnterByHand(no) => if no in s.live then (s, Refused) else (s.(live := s.live + [no]), Done)
  }

  function Run(s: State, steps: seq<Step>): State {
    if steps == [] then s else Take(Run(s, steps[..|steps| - 1]), steps[|steps| - 1]).0
  }

  // ---- The greatest issued number ----

  /** Every live number with the prefix is below the next one. */
  ghost predicate Above(live: seq<string>, prefix: string, next: int) {
    forall no :: no in live && Extract(no, prefix).Some? ==> Extract(no, prefix).value < next
  }

  lemma {:induction false} MaxIssuedIsMaximum(live: seq<string>, prefix: string)
    ensures Above(live, prefix, MaxIssued(live, prefix) + 1)
    ensures MaxIssued(live, prefix) > 0
      ==> exists no :: no in live && Extract(no, prefix) == Some(MaxIssued(live, prefix))
    ensures MaxIssued(live, prefix) <= MAX_DOCUMENT_SEQUENCE_NUMBER
  {
    hide Extract;
    if live != [] {
      var init, last := live[..|live| - 1], live[|live| - 1];
      assert live == init + [last];
      MaxIssuedIsMaximum(init, prefix);
      ExtractPlausible(last, prefix);
      assert last in live;
    }
  }

  lemma ExtractPlausible(no: string, prefix: string)
    ensures Extract(no, prefix).Some? ==> Plausible(Extract(no, prefix).value)
  {
  }

  /** A bound on the issued numbers is exactly a next number above them all. */
  lemma AboveIff(live: seq<string>, prefix: string, next: int)
    requires next >= 1
    ensures Above(live, prefix, next) <==> MaxIssued(live, prefix) < next
  {
    hide Extract, MaxIssued;
    MaxIssuedIsMaximum(live, prefix);
  }

  // ---- Stored prefixes ----

  lemma {:induction false} TrimStartHead(s: string)
    ensures TrimStart(s) == [] || !IsSpace(TrimStart(s)[0])
  {
    if s != [] && IsSpace(s[0]) { TrimStartHead(s[1..]); }
  }

  lemma TrimTwice(s: string)
    ensures Trim(Trim(s)) == Trim(s)
  {
    TrimStartHead(s);
    var t := Trim(s);
    if t != [] { assert t[0] == TrimStart(s)[0]; }
    assert TrimStart(t) == t;
  }

  lemma ExtractTrimmed(no: string, prefix: string)
    ensures Extract(no, prefix) == Extract(no, Trim(prefix))
  {
    TrimTwice(prefix);
  }

  lemma {:induction false} MaxIssuedTrimmed(live: seq<string>, prefix: string)
    ensures MaxIssued(live, prefix) == MaxIssued(live, Trim(prefix))
  {
    hide Extract, Trim;
    if live != [] {
      MaxIssuedTrimmed(live[..|live| - 1], prefix);
      ExtractTrimmed(live[|live| - 1], prefix);
    }
  }

  lemma PreferredIsStored(setting: string)
    ensures StoredPrefix(Preferred(setting))
  {
    TrimTwice(setting);
    assert Trim("INV-") == "INV-" by { assert TrimStart("INV-") == "INV-"; }
  }

  // ---- When the next number is safe ----

  /** The conditions under which the printed number can be read back. */
  predicate Fits(q: Sequence) {
    Plausible(q.next) && q.padding <= 9 && SuffixParses(q.suffix)
    && (q.padding == 0 || |Digits(q.next)| <= q.padding)
  }

  lemma FittingNumberParses(q: Sequence)
    requires StoredPrefix(q.prefix) && Fits(q)
    ensures Extract(NextNumber(q), q.prefix) == Some(q.next)
  {
    hide Extract, SuffixParses, StoredPrefix, Format, DbFormat, Digits;
    FormattersAgreeIff(q.prefix, q.next, q.padding, q.suffix);
    StoredPrefixIs(q.prefix);
    RoundTripIff(q.prefix, q.next, q.padding, q.suffix);
  }

  /** What is read back from a printed number that was cut, or padded past nine digits. */
  lemma UnfittingNumberHides(q: Sequence)
    requires StoredPrefix(q.prefix) && Plausible(q.next) && SuffixParses(q.suffix) && q.padding <= 10 && !Fits(q)
    ensures Above([NextNumber(q)], q.prefix, q.next)
  {
    hide Extract, SuffixParses, StoredPrefix, Format, DbFormat, Digits;
    PlausibleDigits(q.next);
    if q.padding == 10 {
      FormattersAgreeIff(q.prefix, q.next, 10, q.suffix);
      StoredPrefixIs(q.prefix);
      PaddingTenUnread(q.prefix, q.next, q.suffix);
    } else {
      var m := OverflowRepeats(q.prefix, q.next, q.padding, q.suffix);
      FormattersAgreeIff(q.prefix, m, q.padding, q.suffix);
      StoredPrefixIs(q.prefix);
      RoundTripIff(q.prefix, m, q.padding, q.suffix);
    }
  }

  /**
   The exact condition of a fresh number. With a suffix the parser steps over,
   the next number differs from every live one, whatever the live ones below it
   are, exactly when it has at most nine digits after padding and is not cut.
   */
  lemma NextIsFreshIff(q: Sequence)
    requires StoredPrefix(q.prefix) && Plausible(q.next) && SuffixParses(q.suffix) && q.padding <= 10
    ensures (forall live :: Above(live, q.prefix, q.next) ==> NextNumber(q) !in live)
      <==> q.padding <= 9 && (q.padding == 0 || |Digits(q.next)| <= q.padding)
  {
    hide Extract, SuffixParses, StoredPrefix, DbFormat, Digits, NextNumber;
    if Fits(q) {
      FittingNumberParses(q);
    } else {
      UnfittingNumberHides(q);
      assert NextNumber(q) in [NextNumber(q)];
    }
  }

  // ---- The invariant ----

  ghost predicate Inv(s: State) {
    Stored(s.sequence) && StoredPrefix(s.sequence.prefix) && Above(s.live, s.sequence.prefix, s.sequence.next)
  }

  lemma RepairKeeps(s: State)
    requires Repair(s).Some? && Stored(s.sequence)
    ensures Inv(Repair(s).value)
  {
    hide Extract, StoredPrefix, MaxIssued, Preferred;
    PreferredIsStored(s.setting);
    MaxIssuedIsMaximum(s.live, Preferred(s.setting));
    assert Preferred(s.setting) != [] by { StoredPrefixIs(Preferred(s.setting)); }
  }

  lemma EnsureKeeps(s: State)
    requires Ensure(s).Some? && Inv(s)
    ensures Inv(Ensure(s).value) && Ensure(s).value.live == s.live && Ensure(s).value.setting == s.setting
  {
    hide Extract, StoredPrefix, MaxIssued, Preferred, Corrupt, Above;
    if Corrupt(s.sequence) { RepairKeeps(s); }
  }

  lemma AllocateKeeps(s: State, stored: bool)
    requires Inv(s) && Fits(s.sequence)
    ensures Inv(Allocate(s, stored)) && NextNumber(s.sequence) !in s.live
  {
    hide Extract, StoredPrefix, Fits, NextNumber;
    FittingNumberParses(s.sequence);
  }

  /**
   An accepted settings change leaves the next number above every live one
   exactly when no live number under the new prefix has reached the cap: at the
   cap the floor that protects issued numbers falls back to 1.
   */
  lemma UpdateKeepsIff(s: State, input: UpdateInput)
    requires Update(s, input).1 == []
    ensures var q := Update(s, input).0.sequence;
      && Stored(q) && StoredPrefix(q.prefix) && Update(s, input).0.live == s.live
      && (Above(s.live, q.prefix, q.next)
          <==> MaxIssued(s.live, OrElse(input.prefix, s.sequence.prefix)) < MAX_DOCUMENT_SEQUENCE_NUMBER)
  {
    hide Extract, MaxIssued, Trim, Above;
    var prefix := OrElse(input.prefix, s.sequence.prefix);
    var q := Update(s, input).0.sequence;
    assert PrefixErrors(prefix) == [] && q.prefix == Trim(prefix);
    TrimTwice(prefix);
    MaxIssuedTrimmed(s.live, prefix);
    MaxIssuedIsMaximum(s.live, prefix);
    AboveIff(s.live, q.prefix, q.next);
  }

  /** What each step needs of the state it starts from. */
  ghost predicate Safe(s: State, step: Step) {
    match step
    case IssueNext(_) => Ensure(s).Some? ==> Fits(Ensure(s).value.sequence)
    case ChangeSettings(input) =>
      Ensure(s).Some? ==>
        MaxIssued(s.live, OrElse(input.prefix, Ensure(s).value.sequence.prefix)) < MAX_DOCUMENT_SEQUENCE_NUMBER
    case EnterByHand(no) =>
      Extract(no, s.sequence.prefix).Some? ==> Extract(no, s.sequence.prefix).value < s.sequence.next
    case _ => true
  }

  lemma StepKeeps(s: State, step: Step)
    requires Inv(s) && Safe(s, step)
    ensures Inv(Take(s, step).0)
    ensures Take(s, step).1.Issued? ==> Take(s, step).1.no !in s.live
  {
    hide Extract, StoredPrefix, Fits, MaxIssued, NextNumber, Allocate, Repair, Update;
    match step {
      case IssueNext(stored) =>
        if Ensure(s).Some? {
          EnsureKeeps(s);
          AllocateKeeps(Ensure(s).value, stored);
        }
      case ChangeSettings(input) =>
        if Ensure(s).Some? {
          EnsureKeeps(s);
          var e := Ensure(s).value;
          if Update(e, input).1 == [] { UpdateKeepsIff(e, input); } else { RefusedUpdate(e, input); }
        }
      case ResetToDefault => if Repair(s).Some? { RepairKeeps(s); }
      case PreferPrefix(_) =>
      case DeleteInvoice(_) =>
      case EnterByHand(_) =>
    }
  }

  lemma RefusedUpdate(s: State, input: UpdateInput)
    requires Update(s, input).1 != []
    ensures Update(s, input).0 == s
  {
  }

  ghost predicate SafeRun(s: State, steps: seq<Step>) {
    forall k :: 0 <= k < |steps| ==> Safe(Run(s, steps[..k]), steps[k])
  }

  /**
   Over every run whose steps are safe, whatever prefix, suffix and padding
   changes it makes, a number that is issued is not the number of any invoice
   that is live when it is issued.
   */
  lemma {:induction false} IssuedNumbersAreFresh(s: State, steps: seq<Step>)
    requires Inv(s) && SafeRun(s, steps)
    ensures Inv(Run(s, steps))
    ensures forall k :: 0 <= k < |steps| ==>
      var before := Run(s, steps[..k]);
      Take(before, steps[k]).1.Issued? ==> Take(before, steps[k]).1.no !in before.live
  {
    hide Inv, Safe, Take;
    if steps != [] {
      var n := |steps| - 1;
      var init := steps[..n];
      forall k | 0 <= k < n ensures Safe(Run(s, init[..k]), init[k]) {
        assert init[..k] == steps[..k];
      }
      IssuedNumbersAreFresh(s, init);
      StepKeeps(Run(s, init), steps[n]);
      forall k | 0 <= k < n ensures init[..k] == steps[..k] && init[k] == steps[k] {}
    }
  }

  /** A new company starts inside the invariant. */
  lemma SeedIsSound(setting: string)
    requires |Preferred(setting)| <= PREFIX_MAX_LENGTH
    ensures Inv(State(Sequence(Preferred(setting), 1, 1, 6, ""), setting, []))
  {
    hide Preferred, StoredPrefix;
    PreferredIsStored(setting);
    assert Preferred(setting) != [] by { StoredPrefixIs(Preferred(setting)); }
  }

  /**
   At the cap the sequence stops moving: once a live invoice has the greatest
   number, every allocation repairs the sequence first and issues the same number again.
   */
  lemma CapRepeats(s: State, stored: bool)
    requires !Plausible(s.sequence.next) && s.sequence.padding <= PADDING_MAX
    requires |Preferred(s.setting)| <= PREFIX_MAX_LENGTH
    requires MaxIssued(s.live, Preferred(s.setting)) == MAX_DOCUMENT_SEQUENCE_NUMBER
    ensures var (once, first) := Take(s, IssueNext(stored));
      first.Issued? && Take(once, IssueNext(stored)).1 == first
  {
    hide Extract, Preferred, DbFormat, MaxIssued, Trim, Upper;
    var prefix := Preferred(s.setting);
    var e := Ensure(s).value;
    var once := Allocate(e, stored);
    MaxIssuedIsMaximum(once.live, prefix);
    MaxIssuedGrows(s.live, once.live, prefix);
  }

  lemma {:induction false} MaxIssuedGrows(live: seq<string>, more: seq<string>, prefix: string)
    requires forall no :: no in live ==> no in more
    ensures MaxIssued(live, prefix) <= MaxIssued(more, prefix)
  {
    hide Extract;
    MaxIssuedIsMaximum(live, prefix);
    MaxIssuedIsMaximum(more, prefix);
  }

  /**
   With a padding of ten a reset reissues: nothing that was printed can be read
   back, so the count starts again from one.
   */
  lemma PaddingTenReissues(s: State)
    requires s.sequence == Sequence(Preferred(s.setting), 1, 1, 10, "") && s.live == []
    requires !Corrupt(s.sequence) && |Preferred(s.setting)| <= PREFIX_MAX_LENGTH
    ensures var (once, first) := Take(s, IssueNext(true));
      var reset := Take(once, ResetToDefault).0;
      && first.Issued? && once.live == [first.no]
      && Take(reset, IssueNext(true)).1 == first
  {
    hide Extract, DbFormat, Digits, Preferred, StoredPrefix, Corrupt;
    var prefix := Preferred(s.setting);
    PreferredIsStored(s.setting);
    assert Plausible(s.sequence.starting);
    PlausibleDigits(1);
    FormattersAgreeIff(prefix, 1, 10, "");
    StoredPrefixIs(prefix);
    PaddingTenUnread(prefix, 1, "");
    var no := NextNumber(s.sequence);
    assert [] + [no] == [no] && [no][..0] == [];
    assert MaxIssued([no], prefix) == 0;
    assert Repaired(Take(s, IssueNext(true)).0) == s.sequence;
  }

  // ---- What is issued, and what is stored ----

  /** The numbers of a run of allocations; each flag says whether the invoice is saved. */
  function Issues(saved: seq<bool>): (steps: seq<Step>)
    ensures |steps| == |saved| && forall i :: 0 <= i < |saved| ==> steps[i] == IssueNext(saved[i])
  {
    seq(|saved|, i requires 0 <= i < |saved| => IssueNext(saved[i]))
  }

  /** The number i places on from the next one of this sequence. */
  function NumberAfter(q: Sequence, i: nat): string { DbFormat(q.prefix, q.next + i, q.padding, q.suffix) }

  lemma AllocatesOne(s: State, q: Sequence, i: nat, saved: bool)
    requires !Corrupt(q) && Plausible(q.next + i) && s.sequence == q.(next := q.next + i)
    ensures var (t, outcome) := Take(s, IssueNext(saved));
      && outcome == Issued(NumberAfter(q, i)) && t.sequence == q.(next := q.next + i + 1) && t.setting == s.setting
      && s.live <= t.live && (forall no :: no in t.live ==> no in s.live || no == NumberAfter(q, i))
      && (saved ==> NumberAfter(q, i) in t.live) && (!saved ==> t.live == s.live)
  {
    hide DbFormat, Trim, Upper;
  }

  lemma IssuesPrefix(saved: seq<bool>, i: nat)
    requires i <= |saved|
    ensures Issues(saved)[..i] == Issues(saved[..i])
  {
  }

  lemma {:induction false} SequenceAfter(s: State, saved: seq<bool>)
    requires !Corrupt(s.sequence) && s.sequence.next + |saved| - 1 <= MAX_DOCUMENT_SEQUENCE_NUMBER
    ensures var t := Run(s, Issues(saved));
      && t.sequence == s.sequence.(next := s.sequence.next + |saved|) && t.setting == s.setting && s.live <= t.live
  {
    hide Corrupt, Take;
    if |saved| > 0 {
      var n := |saved| - 1;
      IssuesPrefix(saved, n);
      SequenceAfter(s, saved[..n]);
      StillPlausible(s.sequence, n);
      AllocatesOne(Run(s, Issues(saved[..n])), s.sequence, n, saved[n]);
    }
  }

  lemma {:induction false} SavedAreLive(s: State, saved: seq<bool>, i: nat)
    requires !Corrupt(s.sequence) && s.sequence.next + |saved| - 1 <= MAX_DOCUMENT_SEQUENCE_NUMBER
    requires i < |saved| && saved[i]
    ensures NumberAfter(s.sequence, i) in Run(s, Issues(saved)).live
  {
    hide Corrupt, Take, NumberAfter;
    var n := |saved| - 1;
    IssuesPrefix(saved, n);
    SequenceAfter(s, saved[..n]);
    StillPlausible(s.sequence, n);
    AllocatesOne(Run(s, Issues(saved[..n])), s.sequence, n, saved[n]);
    if i < n { SavedAreLive(s, saved[..n], i); }
  }

  /**
   Allocations in a row issue the next number and those after it, without a gap, and move
   the sequence on by as many; saved invoices are there under their numbers, and no other
   setting changes.
   */
  lemma AllocatesInOrder(s: State, saved: seq<bool>, i: nat)
    requires !Corrupt(s.sequence) && s.sequence.next + |saved| - 1 <= MAX_DOCUMENT_SEQUENCE_NUMBER
    ensures var (q, t) := (s.sequence, Run(s, Issues(saved)));
      && t.sequence == q.(next := q.next + |saved|) && t.setting == s.setting && s.live <= t.live
      && (i < |saved| ==>
            && Take(Run(s, Issues(saved)[..i]), IssueNext(saved[i])).1
               == Issued(DbFormat(q.prefix, q.next + i, q.padding, q.suffix))
            && (saved[i] ==> DbFormat(q.prefix, q.next + i, q.padding, q.suffix) in t.live))
  {
    hide Corrupt, Take, DbFormat;
    SequenceAfter(s, saved);
    if i < |saved| {
      IssuesPrefix(saved, i);
      SequenceAfter(s, saved[..i]);
      StillPlausible(s.sequence, i);
      AllocatesOne(Run(s, Issues(saved[..i])), s.sequence, i, saved[i]);
      if saved[i] { SavedAreLive(s, saved, i); }
    }
  }

  lemma StillPlausible(q: Sequence, i: nat)
    requires !Corrupt(q) && q.next + i <= MAX_DOCUMENT_SEQUENCE_NUMBER
    ensures Plausible(q.next + i)
  {
  }

  /**
   What any allocation issues. A sequence out of range, or under a prefix that begins with
   ZAT, is rebuilt first: the preferred prefix, one more than the greatest number issued
   under it, no suffix, and padding and starting number where they are in range.
   */
  lemma AllocationIssues(s: State, saved: bool)
    ensures var (q, preferred) := (s.sequence, Preferred(s.setting));
      var (t, outcome) := Take(s, IssueNext(saved));
      var least := MaxIssued(s.live, preferred) + 1;
      var padding := if q.padding <= 10 then q.padding else 6;
      if Plausible(q.next) && Plausible(q.starting) && !("ZAT" <= Upper(Trim(q.prefix))) then
        outcome == Issued(DbFormat(q.prefix, q.next, q.padding, q.suffix)) && t.sequence == q.(next := q.next + 1)
      else if |preferred| <= 20 then
        && outcome == Issued(DbFormat(preferred, least, padding, ""))
        && t.sequence == Sequence(preferred, if Plausible(q.starting) then q.starting else 1, least + 1, padding, "")
      else outcome == Refused && t == s
  {
    hide DbFormat, Trim, Upper, MaxIssued, Preferred, Plausible;
  }

  /** A field as the settings give it, or as it was. */
  predicate GivenOrKept<T(==)>(given: Option<T>, existing: T, stored: T) {
    (stored == existing && given.None?) || given == Some(stored)
  }

  /** An accepted change stores each field that it gives and keeps every other one; a refused change stores none. */
  lemma UpdateStores(s: State, input: UpdateInput)
    ensures var (t, errors) := Update(s, input);
      && t.live == s.live && t.setting == s.setting && (errors != [] ==> t == s)
      && (errors == [] ==>
            && t.sequence.prefix == Trim(if input.prefix.Some? then input.prefix.value else s.sequence.prefix)
            && GivenOrKept(input.starting, s.sequence.starting as int, t.sequence.starting as int)
            && GivenOrKept(input.next, s.sequence.next as int, t.sequence.next as int)
            && GivenOrKept(input.padding, s.sequence.padding as int, t.sequence.padding as int)
            && GivenOrKept(input.suffix, s.sequence.suffix, t.sequence.suffix))
  {
    hide Errors, Trim, MaxIssued;
    AcceptedValues(OrElse(input.prefix, s.sequence.prefix), OrElse(input.starting, s.sequence.starting),
                   OrElse(input.next, s.sequence.next), OrElse(input.padding, s.sequence.padding),
                   OrElse(input.suffix, s.sequence.suffix), SafeMin(s.live, OrElse(input.prefix, s.sequence.prefix)));
  }

  /** A change is accepted exactly when its fields are in range and its next number is above every issued one, or one has reached the cap. */
  lemma UpdateAcceptedIff(s: State, input: UpdateInput)
    ensures var q := s.sequence;
      var prefix := if input.prefix.Some? then input.prefix.value else q.prefix;
      var starting := if input.starting.Some? then input.starting.value else q.starting;
      var next := if input.next.Some? then input.next.value else q.next;
      var padding := if input.padding.Some? then input.padding.value else q.padding;
      var suffix := if input.suffix.Some? then input.suffix.value else q.suffix;
      var greatest := MaxIssued(s.live, prefix);
      Update(s, input).1 == [] <==>
        && 1 <= |Trim(prefix)| <= 20 && !AllDigits(Trim(prefix)) && |suffix| <= 20 && 0 <= padding <= 10
        && 1 <= starting <= 999_999_999 && 1 <= next <= 999_999_999 && (next > greatest || greatest >= 999_999_999)
  {
    hide Errors, Trim, MaxIssued;
    AcceptedValues(OrElse(input.prefix, s.sequence.prefix), OrElse(input.starting, s.sequence.starting),
                   OrElse(input.next, s.sequence.next), OrElse(input.padding, s.sequence.padding),
                   OrElse(input.suffix, s.sequence.suffix), SafeMin(s.live, OrElse(input.prefix, s.sequence.prefix)));
  }

  /** A blank preference means INV-; any other one is taken without the white space around it. */
  lemma PreferredIs(before: string, text: string, after: string)
    requires AllSpace(before) && AllSpace(after)
    requires text != [] && !IsSpace(text[0]) && !IsSpace(text[|text| - 1])
    ensures Preferred(before) == "INV-" && Preferred(before + text + after) == text
  {
    hide IsSpace, TrimStart, TrimEnd;
    TrimBlank(before);
    TrimBetween(before, text, after);
  }

  ghost predicate AllSpace(s: string) { forall i :: 0 <= i < |s| ==> IsSpace(s[i]) }

  lemma {:induction false} TrimBlank(s: string)
    requires AllSpace(s)
    ensures TrimStart(s) == [] && Trim(s) == []
  {
    hide IsSpace;
    if s != [] { TrimBlank(s[1..]); }
  }

  lemma {:induction false} TrimEndBlank(s: string)
    requires AllSpace(s)
    ensures TrimEnd(s) == []
  {
    hide IsSpace;
    if s != [] { TrimEndBlank(s[..|s| - 1]); }
  }

  lemma TrimBetween(before: string, text: string, after: string)
    requires text != [] && !IsSpace(text[0]) && !IsSpace(text[|text| - 1]) && AllSpace(before) && AllSpace(after)
    ensures Trim(before + text + after) == text
  {
    hide IsSpace;
    TrimBlank(before);
    TrimStartAppend(before, text + after);
    assert before + text + after == before + (text + after);
    assert TrimStart(text + after) == text + after;
    TrimEndAppend(text, after);
    TrimEndBlank(after);
    assert text + [] == text;
  }

  /** Which violations are reported: each one of these that holds, and no other. */
  lemma ReportedViolations(prefix: string, starting: int, next: int, padding: int, suffix: string, floor: int)
    ensures var (errors, p) := (Errors(prefix, starting, next, padding, suffix, floor), Trim(prefix));
      && (PrefixRequired in errors <==> p == [])
      && (PrefixTooLong in errors <==> |p| > 20)
      && (PrefixOnlyDigits in errors <==> 1 <= |p| <= 20 && AllDigits(p))
      && (StartingOutOfRange in errors <==> !(1 <= starting <= 999_999_999))
      && (NextOutOfRange in errors <==> !(1 <= next <= 999_999_999))
      && (NextBelowIssued in errors <==> 1 <= next <= 999_999_999 && 1 <= floor <= 999_999_999 && next < floor)
      && (PaddingOutOfRange in errors <==> padding < 0 || padding > 10)
      && (SuffixTooLong in errors <==> |suffix| > 20)
  {
    hide Trim, PrefixErrors, StartingErrors, NextErrors, PaddingErrors, SuffixErrors;
    forall e: UpdateError
      ensures e in Errors(prefix, starting, next, padding, suffix, floor)
        <==> e in PrefixErrors(prefix) || e in StartingErrors(starting) || e in NextErrors(next, floor)
             || e in PaddingErrors(padding) || e in SuffixErrors(suffix)
    {}
    PrefixViolations(prefix);
    OtherViolations(starting, next, padding, suffix, floor);
  }

  lemma PrefixViolations(prefix: string)
    ensures var (errors, p) := (PrefixErrors(prefix), Trim(prefix));
      && (forall e :: e in errors ==> e in {PrefixRequired, PrefixTooLong, PrefixOnlyDigits})
      && (PrefixRequired in errors <==> p == [])
      && (PrefixTooLong in errors <==> |p| > 20)
      && (PrefixOnlyDigits in errors <==> 1 <= |p| <= 20 && AllDigits(p))
  {
    hide Trim;
    var p := Trim(prefix);
    assert LeadingRun(p) == |p| <==> AllDigits(p);
  }

  lemma OtherViolations(starting: int, next: int, padding: int, suffix: string, floor: int)
    ensures forall e :: e in StartingErrors(starting) <==> e == StartingOutOfRange && !(1 <= starting <= 999_999_999)
    ensures forall e :: e in NextErrors(next, floor) <==>
      || (e == NextOutOfRange && !(1 <= next <= 999_999_999))
      || (e == NextBelowIssued && 1 <= next <= 999_999_999 && 1 <= floor <= 999_999_999 && next < floor)
    ensures forall e :: e in PaddingErrors(padding) <==> e == PaddingOutOfRange && (padding < 0 || padding > 10)
    ensures forall e :: e in SuffixErrors(suffix) <==> e == SuffixTooLong && |suffix| > 20
  {
  }
}
