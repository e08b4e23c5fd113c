// updateConditions of pkg/resource/metric_alarm/sdk.go and pkg/resource/dashboard/sdk.go as
// a function on condition lists, and what any history of outcomes leaves behind.

module Conditions {
  import opened Wrappers

  datatype Kind = Terminal | Recoverable | ResourceSynced | OtherKind(name: string)

  datatype Status = True | False | Unknown | Unset

  datatype ConditionView = ConditionView(
    kind: Kind, status: Status, message: Option<string>, reason: Option<string>, transition: Option<int>)

  type Outcome = Option<Error>   // None is success

  // The AWS error codes terminalAWSError accepts, per resource.
  const METRIC_ALARM_CODES: set<string> := {}
  const DASHBOARD_CODES: set<string> := {"InvalidParameterValueException", "InvalidParameterInput"}

  predicate HoldsTerminalError(e: Error) {
    e.kind.SecretTypeNotSupported? || e.kind.SecretNotFound? || e.kind.TerminalError?
  }

  predicate IsTerminal(o: Outcome, codes: set<string>) {
    o.Some? && (HoldsTerminalError(o.value) || (o.value.aws.Some? && o.value.aws.value.code in codes))
  }

  function TerminalText(e: Error): string {
    if HoldsTerminalError(e) || e.aws.None? then e.text else e.aws.value.text
  }

  function RecoverableText(e: Error): string {
    if e.aws.Some? then e.aws.value.text else e.text
  }

  // The condition the loop of updateConditions is left holding: the last one of a kind.
  function LastOf(cs: seq<ConditionView>, k: Kind): (i: int)
    ensures -1 <= i < |cs|
    ensures i >= 0 ==> cs[i].kind == k
    ensures forall j | i < j < |cs| :: cs[j].kind != k
  {
    if cs == [] then -1
    else if cs[|cs| - 1].kind == k then |cs| - 1
    else LastOf(cs[..|cs| - 1], k)
  }

  function Mark(cs: seq<ConditionView>, k: Kind, text: string): seq<ConditionView> {
    var i := LastOf(cs, k);
    if i < 0 then cs + [ConditionView(k, True, Some(text), None, None)]
    else cs[i := cs[i].(status := True, message := Some(text))]
  }

  function Clear(cs: seq<ConditionView>, k: Kind): seq<ConditionView> {
    var i := LastOf(cs, k);
    if i < 0 then cs else cs[i := cs[i].(status := False, message := None)]
  }

  function Updated(cs: seq<ConditionView>, o: Outcome, codes: set<string>): seq<ConditionView> {
    if IsTerminal(o, codes) then Mark(cs, Terminal, TerminalText(o.value))
    else if o.Some? then Mark(Clear(cs, Terminal), Recoverable, RecoverableText(o.value))
    else Clear(Clear(cs, Terminal), Recoverable)
  }

  function History(cs: seq<ConditionView>, os: seq<Outcome>, codes: set<string>): seq<ConditionView> {
    if os == [] then cs else Updated(History(cs, os[..|os| - 1], codes), os[|os| - 1], codes)
  }

  // updateConditions reports an update when it holds one of the three conditions it looks for.
  predicate Tracked(cs: seq<ConditionView>) {
    LastOf(cs, Terminal) >= 0 || LastOf(cs, Recoverable) >= 0 || LastOf(cs, ResourceSynced) >= 0
  }

  lemma UntrackedSuccess(cs: seq<ConditionView>)
    requires !Tracked(cs)
    ensures Updated(cs, None, {}) == cs
  {
  }

  /******* Whole histories *******/

  // What an observer reads for a kind: its last condition.
  function Reading(cs: seq<ConditionView>, k: Kind): Option<(Status, Option<string>)> {
    var i := LastOf(cs, k);
    if i < 0 then None else Some((cs[i].status, cs[i].message))
  }

  predicate ReadsTrue(cs: seq<ConditionView>, k: Kind) {
    Reading(cs, k).Some? && Reading(cs, k).value.0 == True
  }

  // Some condition of the kind is True, last or not.
  ghost predicate ShowsTrue(cs: seq<ConditionView>, k: Kind) {
    exists i :: 0 <= i < |cs| && cs[i].kind == k && cs[i].status == True
  }

  function LastNonTerminal(os: seq<Outcome>, codes: set<string>): Option<Outcome> {
    if os == [] then None
    else if !IsTerminal(os[|os| - 1], codes) then Some(os[|os| - 1])
    else LastNonTerminal(os[..|os| - 1], codes)
  }

  ghost predicate AtMostOne(cs: seq<ConditionView>, k: Kind) {
    forall i, j | 0 <= i < j < |cs| :: !(cs[i].kind == k && cs[j].kind == k)
  }

  // A True Terminal condition that updateConditions never reaches, because one follows it.
  ghost predicate Stale(cs: seq<ConditionView>) {
    exists i :: 0 <= i < LastOf(cs, Terminal) && cs[i].kind == Terminal && cs[i].status == True
  }

  // The outcomes that raise a condition of a kind.
  predicate Raises(o: Outcome, k: Kind, codes: set<string>) {
    (k == Terminal && IsTerminal(o, codes)) || (k == Recoverable && o.Some? && !IsTerminal(o, codes))
  }

  predicate Raised(os: seq<Outcome>, k: Kind, codes: set<string>) {
    exists o | o in os :: Raises(o, k, codes)
  }

  // A kind the controller may add a condition of, because there was none.
  ghost predicate Fresh(before: seq<ConditionView>, k: Kind) {
    k in {Terminal, Recoverable} && LastOf(before, k) < 0
  }

  // after is before with only status and message of the last Terminal and of the last
  // Recoverable rewritten, and at most one of each appended where there was none.
  ghost predicate Grown(before: seq<ConditionView>, after: seq<ConditionView>) {
    && |before| <= |after| <= |before| + 2
    && (forall i | 0 <= i < |before| ::
          after[i] == before[i].(status := after[i].status, message := after[i].message))
    && (forall i | 0 <= i < |before| && i != LastOf(before, Terminal) && i != LastOf(before, Recoverable) ::
          after[i] == before[i])
    && (forall i | |before| <= i < |after| ::
          Fresh(before, after[i].kind) && after[i].reason.None? && after[i].transition.None?)
    && (forall i, j | |before| <= i < j < |after| :: after[i].kind != after[j].kind)
  }

  lemma LastOfIs(cs: seq<ConditionView>, k: Kind, i: int)
    requires 0 <= i < |cs| && cs[i].kind == k && forall j | i < j < |cs| :: cs[j].kind != k
    ensures LastOf(cs, k) == i
  {
  }

  lemma MarkReads(cs: seq<ConditionView>, k: Kind, text: string, other: Kind)
    requires other != k
    ensures Reading(Mark(cs, k, text), k) == Some((True, Some(text)))
    ensures Reading(Mark(cs, k, text), other) == Reading(cs, other)
    ensures forall i | 0 <= i < |cs| :: Mark(cs, k, text)[i].kind == cs[i].kind
  {
    var i, m := LastOf(cs, k), Mark(cs, k, text);
    LastOfIs(m, k, if i < 0 then |cs| else i);
    SameKinds(cs, m, other);
  }

  lemma ClearReads(cs: seq<ConditionView>, k: Kind, other: Kind)
    requires other != k
    ensures Reading(Clear(cs, k), k) == if LastOf(cs, k) < 0 then None else Some((False, None))
    ensures Reading(Clear(cs, k), other) == Reading(cs, other)
    ensures LastOf(Clear(cs, k), other) == LastOf(cs, other)
    ensures LastOf(Clear(cs, k), k) == LastOf(cs, k)
  {
    var i, m := LastOf(cs, k), Clear(cs, k);
    if i >= 0 {
      LastOfIs(m, k, i);
    }
    SameKinds(cs, m, other);
  }

  // Lists with the same kinds up to appended conditions of other kinds end a kind at the same place.
  lemma SameKinds(cs: seq<ConditionView>, m: seq<ConditionView>, k: Kind)
    requires |cs| <= |m| && forall i | 0 <= i < |cs| :: m[i].kind == cs[i].kind
    requires forall i | |cs| <= i < |m| :: m[i].kind != k
    ensures LastOf(m, k) == LastOf(cs, k)
  {
    var i := LastOf(cs, k);
    if i >= 0 {
      LastOfIs(m, k, i);
    }
  }

  lemma UpdatedReads(cs: seq<ConditionView>, o: Outcome, codes: set<string>)
    ensures Reading(Updated(cs, o, codes), Terminal)
            == if IsTerminal(o, codes) then Some((True, Some(TerminalText(o.value))))
               else if LastOf(cs, Terminal) < 0 then None else Some((False, None))
    ensures Reading(Updated(cs, o, codes), Recoverable)
            == if IsTerminal(o, codes) then Reading(cs, Recoverable)
               else if o.Some? then Some((True, Some(RecoverableText(o.value))))
               else if LastOf(cs, Recoverable) < 0 then None else Some((False, None))
  {
    if IsTerminal(o, codes) {
      MarkReads(cs, Terminal, TerminalText(o.value), Recoverable);
    } else {
      ClearReads(cs, Terminal, Recoverable);
      var cleared := Clear(cs, Terminal);
      if o.Some? {
        MarkReads(cleared, Recoverable, RecoverableText(o.value), Terminal);
      } else {
        ClearReads(cleared, Recoverable, Terminal);
      }
    }
  }

  lemma RaisedLast(os: seq<Outcome>, k: Kind, codes: set<string>)
    requires os != []
    ensures Raised(os, k, codes) <==> Raised(os[..|os| - 1], k, codes) || Raises(os[|os| - 1], k, codes)
  {
    assert os == os[..|os| - 1] + [os[|os| - 1]];
  }

  // A condition of a kind is there exactly if it was there before or some outcome raised it.
  lemma {:induction false} PresentExactly(cs: seq<ConditionView>, os: seq<Outcome>, codes: set<string>, k: Kind)
    requires k in {Terminal, Recoverable}
    ensures LastOf(History(cs, os, codes), k) >= 0 <==> LastOf(cs, k) >= 0 || Raised(os, k, codes)
  {
    assert os == [] ==> !Raised(os, k, codes);
    hide Updated, Raised;
    if os == [] {
    } else {
      var n := |os| - 1;
      PresentExactly(cs, os[..n], codes, k);
      UpdatedReads(History(cs, os[..n], codes), os[n], codes);
      RaisedLast(os, k, codes);
      assert Reading(History(cs, os, codes), k).Some? <==> LastOf(History(cs, os, codes), k) >= 0;
    }
  }

  // Terminal is True exactly when the last outcome was terminal, and then carries its text;
  // otherwise it is False, or absent if it never was there.
  lemma TerminalFollowsLastOutcome(cs: seq<ConditionView>, os: seq<Outcome>, codes: set<string>)
    requires os != []
    ensures Reading(History(cs, os, codes), Terminal)
            == if IsTerminal(os[|os| - 1], codes) then Some((True, Some(TerminalText(os[|os| - 1].value))))
               else if LastOf(cs, Terminal) >= 0 || Raised(os, Terminal, codes) then Some((False, None))
               else None
  {
    UpdatedReads(History(cs, os[..|os| - 1], codes), os[|os| - 1], codes);
    PresentExactly(cs, os, codes, Terminal);
  }

  // Recoverable reports the last outcome that was not terminal; terminal ones leave it alone.
  // After a success it is False, or absent if it never was there.
  lemma {:induction false} RecoverableFollowsLastNonTerminal(
    cs: seq<ConditionView>, os: seq<Outcome>, codes: set<string>)
    ensures Reading(History(cs, os, codes), Recoverable)
            == match LastNonTerminal(os, codes)
               case None => Reading(cs, Recoverable)
               case Some(Some(e)) => Some((True, Some(RecoverableText(e))))
               case Some(None) =>
                 if LastOf(cs, Recoverable) >= 0 || Raised(os, Recoverable, codes) then Some((False, None)) else None
  {
    if os == [] {
    } else {
      var n := |os| - 1;
      var before := History(cs, os[..n], codes);
      RecoverableFollowsLastNonTerminal(cs, os[..n], codes);
      UpdatedReads(before, os[n], codes);
      PresentExactly(cs, os[..n], codes, Recoverable);
      RaisedLast(os, Recoverable, codes);
    }
  }

  // Nothing else changes: other conditions, their order and shadowed duplicates stay, and
  // over a whole history at most one Terminal and one Recoverable are added.
  lemma {:induction false} HistoryGrows(cs: seq<ConditionView>, os: seq<Outcome>, codes: set<string>)
    ensures Grown(cs, History(cs, os, codes))
  {
    if os == [] {
    } else {
      HistoryGrows(cs, os[..|os| - 1], codes);
      var before, last := History(cs, os[..|os| - 1], codes), os[|os| - 1];
      if IsTerminal(last, codes) {
        MarkGrows(cs, before, Terminal, TerminalText(last.value));
      } else {
        ClearGrows(cs, before, Terminal);
        if last.Some? {
          MarkGrows(cs, Clear(before, Terminal), Recoverable, RecoverableText(last.value));
        } else {
          ClearGrows(cs, Clear(before, Terminal), Recoverable);
        }
      }
    }
  }

  // In other words: every condition keeps its place, kind, reason and transition time; only the
  // last Terminal and the last Recoverable change at all; what is appended has neither of the two.
  lemma HistoryKeeps(cs: seq<ConditionView>, os: seq<Outcome>, codes: set<string>, i: nat)
    requires i < |History(cs, os, codes)|
    ensures |cs| <= |History(cs, os, codes)|
    ensures var c := History(cs, os, codes)[i];
            if i < |cs| then
              && c.kind == cs[i].kind && c.reason == cs[i].reason && c.transition == cs[i].transition
              && (c != cs[i] ==>
                    && (c.kind == Terminal || c.kind == Recoverable)
                    && forall j | i < j < |cs| :: cs[j].kind != c.kind)
            else
              && (c.kind == Terminal || c.kind == Recoverable) && c.reason.None? && c.transition.None?
              && forall j | 0 <= j < i :: History(cs, os, codes)[j].kind != c.kind
  {
    hide History, LastOf;
    HistoryGrows(cs, os, codes);
    var h := History(cs, os, codes);
    assert i < |cs| && h[i] != cs[i] ==> i == LastOf(cs, Terminal) || i == LastOf(cs, Recoverable);
    if i >= |cs| {
      assert LastOf(cs, h[i].kind) < 0;
      forall j | 0 <= j < i ensures h[j].kind != h[i].kind {
        assert j < |cs| ==> h[j].kind == cs[j].kind;
      }
    }
  }

  // Where the last condition of a kind sits after growth.
  lemma GrownLast(cs: seq<ConditionView>, m: seq<ConditionView>, k: Kind)
    requires Grown(cs, m) && k in {Terminal, Recoverable}
    ensures LastOf(m, k) == LastOf(cs, k) || (LastOf(cs, k) < 0 && LastOf(m, k) >= |cs|)
  {
    var i := LastOf(cs, k);
    if i >= 0 {
      LastOfIs(m, k, i);
    }
  }

  // Overwriting the last condition of a kind keeps the growth.
  lemma RewriteGrows(cs: seq<ConditionView>, m: seq<ConditionView>, k: Kind, c: ConditionView)
    requires Grown(cs, m) && k in {Terminal, Recoverable} && LastOf(m, k) >= 0
    requires c == m[LastOf(m, k)].(status := c.status, message := c.message)
    ensures Grown(cs, m[LastOf(m, k) := c])
  {
    hide LastOf;
    GrownLast(cs, m, k);
  }

  lemma MarkGrows(cs: seq<ConditionView>, m: seq<ConditionView>, k: Kind, text: string)
    requires Grown(cs, m) && k in {Terminal, Recoverable}
    ensures Grown(cs, Mark(m, k, text))
  {
    GrownLast(cs, m, k);
    if LastOf(m, k) >= 0 {
      RewriteGrows(cs, m, k, m[LastOf(m, k)].(status := True, message := Some(text)));
    }
  }

  lemma ClearGrows(cs: seq<ConditionView>, m: seq<ConditionView>, k: Kind)
    requires Grown(cs, m) && k in {Terminal, Recoverable}
    ensures Grown(cs, Clear(m, k))
  {
    if LastOf(m, k) >= 0 {
      RewriteGrows(cs, m, k, m[LastOf(m, k)].(status := False, message := None));
    }
  }

  // No history introduces a second Terminal or a second Recoverable.
  lemma NoDuplicates(cs: seq<ConditionView>, os: seq<Outcome>, codes: set<string>, k: Kind)
    requires AtMostOne(cs, k)
    ensures AtMostOne(History(cs, os, codes), k)
  {
    HistoryGrows(cs, os, codes);
  }

  // onError answers "terminal" when any Terminal condition is True. Over any history that is
  // the last outcome, or a stale True condition shadowed by a later duplicate from the start.
  lemma AnyTerminalExactly(cs: seq<ConditionView>, os: seq<Outcome>, codes: set<string>)
    requires os != []
    ensures ShowsTrue(History(cs, os, codes), Terminal) <==> IsTerminal(os[|os| - 1], codes) || Stale(cs)
  {
    var h := History(cs, os, codes);
    HistoryGrows(cs, os, codes);
    GrownLast(cs, h, Terminal);
    TerminalFollowsLastOutcome(cs, os, codes);
    if i :| 0 <= i < |h| && h[i].kind == Terminal && h[i].status == True {
      assert i != LastOf(h, Terminal) ==> i < |cs| && cs[i] == h[i];
    }
    if i :| 0 <= i < LastOf(cs, Terminal) && cs[i].kind == Terminal && cs[i].status == True {
      assert h[i] == cs[i];
    }
  }

  // One history after another is one history.
  lemma {:induction false} HistoryAppend(
    cs: seq<ConditionView>, os: seq<Outcome>, more: seq<Outcome>, codes: set<string>)
    ensures History(History(cs, os, codes), more, codes) == History(cs, os + more, codes)
  {
    hide Updated;
    if more == [] {
      assert os + more == os;
    } else {
      var n := |more| - 1;
      HistoryAppend(cs, os, more[..n], codes);
      assert (os + more)[..|os + more| - 1] == os + more[..n];
    }
  }

  lemma NoOutcome(cs: seq<ConditionView>, codes: set<string>)
    ensures History(cs, [], codes) == cs
  {
  }

  lemma OneOutcome(cs: seq<ConditionView>, o: Outcome, codes: set<string>)
    ensures History(cs, [o], codes) == Updated(cs, o, codes)
  {
    assert [o][..0] == [];
  }

  lemma TwoOutcomes(cs: seq<ConditionView>, o: Outcome, p: Outcome, codes: set<string>)
    ensures History(cs, [o, p], codes) == Updated(Updated(cs, o, codes), p, codes)
  {
    assert [o, p][..1] == [o];
    OneOutcome(cs, o, codes);
  }

  // No history makes a condition stale, and none mends it.
  lemma StaleForEver(cs: seq<ConditionView>, os: seq<Outcome>, codes: set<string>)
    ensures Stale(History(cs, os, codes)) <==> Stale(cs)
  {
    var h := History(cs, os, codes);
    HistoryGrows(cs, os, codes);
    GrownLast(cs, h, Terminal);
    assert forall i | 0 <= i < LastOf(h, Terminal) && h[i].kind == Terminal && h[i].status == True :: cs[i] == h[i];
    assert forall i | 0 <= i < LastOf(cs, Terminal) && cs[i].kind == Terminal :: h[i] == cs[i];
  }

  // A list with a stale condition: what updateConditions rewrites is the second Terminal.
  const STALE_EXAMPLE :=
    [ConditionView(Terminal, True, None, None, None), ConditionView(Terminal, False, None, None, None)]

  // It stays stale through every history that is not empty, and reads False after a success.
  lemma StaleExampleStays(os: seq<Outcome>, codes: set<string>)
    ensures Stale(STALE_EXAMPLE)
    ensures ShowsTrue(History(STALE_EXAMPLE, os, codes), Terminal)
    ensures os != [] && os[|os| - 1].None? ==>
              Reading(History(STALE_EXAMPLE, os, codes), Terminal) == Some((False, None))
  {
    assert STALE_EXAMPLE[0].kind == Terminal && STALE_EXAMPLE[0].status == True;
    if os == [] {
      assert History(STALE_EXAMPLE, os, codes)[0] == STALE_EXAMPLE[0];
    } else {
      AnyTerminalExactly(STALE_EXAMPLE, os, codes);
      TerminalFollowsLastOutcome(STALE_EXAMPLE, os, codes);
    }
  }

  // Which errors are terminal, by resource.
  lemma TerminalExactly(e: Error)
    ensures IsTerminal(Some(e), METRIC_ALARM_CODES)
            <==> e.kind == SecretTypeNotSupported || e.kind == SecretNotFound || e.kind == TerminalError
    ensures IsTerminal(Some(e), DASHBOARD_CODES)
            <==> || e.kind == SecretTypeNotSupported || e.kind == SecretNotFound || e.kind == TerminalError
                 || (e.aws.Some? && (e.aws.value.code == "InvalidParameterValueException"
                                     || e.aws.value.code == "InvalidParameterInput"))
    ensures !IsTerminal(None, METRIC_ALARM_CODES) && !IsTerminal(None, DASHBOARD_CODES)
  {
  }

  // The message after a failure: an error the code itself calls terminal speaks for itself, any
  // other lets the AWS error in it speak, if there is one.
  lemma MessageExactly(cs: seq<ConditionView>, os: seq<Outcome>, e: Error, codes: set<string>)
    ensures var terminal := Reading(History(cs, os + [Some(e)], codes), Terminal);
            if e.kind == SecretTypeNotSupported || e.kind == SecretNotFound || e.kind == TerminalError then
              terminal == Some((True, Some(e.text)))
            else if e.aws.Some? && e.aws.value.code in codes then
              terminal == Some((True, Some(e.aws.value.text)))
            else
              && (terminal.None? || terminal == Some((False, None)))
              && Reading(History(cs, os + [Some(e)], codes), Recoverable)
                 == Some((True, Some(if e.aws.Some? then e.aws.value.text else e.text)))
  {
    hide History;
    TerminalFollowsLastOutcome(cs, os + [Some(e)], codes);
    RecoverableFollowsLastNonTerminal(cs, os + [Some(e)], codes);
  }

  // A tracked condition is one of three kinds.
  lemma TrackedExactly(cs: seq<ConditionView>)
    ensures Tracked(cs) <==>
              exists i :: 0 <= i < |cs| && (cs[i].kind == Terminal || cs[i].kind == Recoverable
                                            || cs[i].kind == ResourceSynced)
  {
    hide LastOf;
    assert LastOf(cs, Terminal) >= 0 ==> cs[LastOf(cs, Terminal)].kind == Terminal;
    assert LastOf(cs, Recoverable) >= 0 ==> cs[LastOf(cs, Recoverable)].kind == Recoverable;
    assert LastOf(cs, ResourceSynced) >= 0 ==> cs[LastOf(cs, ResourceSynced)].kind == ResourceSynced;
  }

  // The same AWS error ends every history of a dashboard in a True Terminal condition, and
  // every history of a metric alarm in a True Recoverable one with Terminal not True.
  lemma InvalidParameterByResource(cs: seq<ConditionView>, os: seq<Outcome>, e: Error)
    requires e.kind != SecretTypeNotSupported && e.kind != SecretNotFound && e.kind != TerminalError && e.aws.Some?
    requires e.aws.value.code == "InvalidParameterValueException" || e.aws.value.code == "InvalidParameterInput"
    ensures Reading(History(cs, os + [Some(e)], DASHBOARD_CODES), Terminal) == Some((True, Some(e.aws.value.text)))
    ensures Reading(History(cs, os + [Some(e)], METRIC_ALARM_CODES), Recoverable)
            == Some((True, Some(e.aws.value.text)))
    ensures var t := Reading(History(cs, os + [Some(e)], METRIC_ALARM_CODES), Terminal);
            t.None? || t == Some((False, None))
  {
    TerminalExactly(e);
    MessageExactly(cs, os, e, DASHBOARD_CODES);
    MessageExactly(cs, os, e, METRIC_ALARM_CODES);
  }
}
