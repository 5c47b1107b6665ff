/**
 POST /api/agent-error in api-server/src/routes/insurance.ts: each event id is
 counted once, with a bounded memory of ids.
 */
module EventFilter {
  import opened Wrappers

  const MAX_SEEN_EVENT_IDS := 10_000

  /** Pairwise different, as the elements of a Set are. */
  predicate Distinct(s: seq<string>) {
    forall i, j :: 0 <= i < j < |s| ==> s[i] != s[j]
  }

  /** The last `n` elements, or all of them. */
  function Last(s: seq<string>, n: nat): seq<string> {
    if |s| <= n then s else s[|s| - n..]
  }

  /** A report with an empty id, like one without, is not filtered. */
  predicate HasId(eventId: Option<string>) {
    eventId.Some? && eventId.value != ""
  }

  /** The JavaScript Set of seen ids in insertion order. `accepted` lists every
      id that was ever let through, in order, and `counted` how many reports were. */
  class Filter {
    var seenEventIds: seq<string>
    ghost var accepted: seq<string>
    ghost var counted: nat

    ghost predicate Valid()
      reads this
    {
      && seenEventIds == Last(accepted, MAX_SEEN_EVENT_IDS)
      && Distinct(seenEventIds)
      && |seenEventIds| <= MAX_SEEN_EVENT_IDS
      && |accepted| <= counted
    }

    constructor ()
      ensures Valid() && accepted == [] && counted == 0
    {
      seenEventIds, accepted, counted := [], [], 0;
    }

    /** A report is a duplicate exactly when its id is one of the last
        MAX_SEEN_EVENT_IDS accepted; every other report is counted. */
    method Report(eventId: Option<string>) returns (duplicate: bool)
      requires Valid()
      modifies this
      ensures Valid()
      ensures duplicate <==> HasId(eventId) && eventId.value in Last(old(accepted), MAX_SEEN_EVENT_IDS)
      ensures duplicate ==> accepted == old(accepted) && counted == old(counted)
      ensures !duplicate ==> counted == old(counted) + 1
      ensures !duplicate ==> accepted == old(accepted) + (if HasId(eventId) then [eventId.value] else [])
    {
      if HasId(eventId) {
        if eventId.value in seenEventIds {
          return true;
        }
        if |seenEventIds| >= MAX_SEEN_EVENT_IDS {
          seenEventIds := seenEventIds[1..];
        }
        seenEventIds := seenEventIds + [eventId.value];
        accepted := accepted + [eventId.value];
      }
      counted := counted + 1;
      duplicate := false;
    }
  }

  // ---------------------------------------------------------------------
  // Whole runs
  // ---------------------------------------------------------------------

  /** The ids let through by a run of reports, from the filter's contract. */
  function Accepted(reports: seq<Option<string>>): seq<string> {
    if reports == [] then []
    else
      var before, r := Accepted(reports[..|reports| - 1]), reports[|reports| - 1];
      if !HasId(r) || r.value in Last(before, MAX_SEEN_EVENT_IDS) then before else before + [r.value]
  }

  predicate IsDuplicate(reports: seq<Option<string>>, i: nat)
    requires i < |reports|
  {
    HasId(reports[i]) && reports[i].value in Last(Accepted(reports[..i]), MAX_SEEN_EVENT_IDS)
  }

  /** One filter fed with a whole run. */
  method Feed(reports: seq<Option<string>>) returns (duplicates: seq<bool>)
    ensures |duplicates| == |reports|
    ensures forall i :: 0 <= i < |reports| ==> duplicates[i] == IsDuplicate(reports, i)
  {
    var f := new Filter();
    duplicates := [];
    for i := 0 to |reports|
      invariant f.Valid() && fresh(f) && f.accepted == Accepted(reports[..i])
      invariant |duplicates| == i
      invariant forall k :: 0 <= k < i ==> duplicates[k] == IsDuplicate(reports, k)
    {
      assert reports[..i + 1][..i] == reports[..i];
      var d := f.Report(reports[i]);
      duplicates := duplicates + [d];
    }
  }

  lemma {:induction false} AcceptedGrows(reports: seq<Option<string>>, i: nat)
    requires i <= |reports|
    ensures Accepted(reports[..i]) <= Accepted(reports)
    ensures |Accepted(reports)| - |Accepted(reports[..i])| <= |reports| - i
    decreases |reports|
  {
    if i == |reports| {
      assert reports[..i] == reports;
    } else {
      var init := reports[..|reports| - 1];
      assert init[..i] == reports[..i];
      AcceptedGrows(init, i);
    }
  }

  /** Right after report `i` its id is among the last accepted, at a position
      that stays its own. */
  lemma ReportedIdIsAccepted(reports: seq<Option<string>>, i: nat) returns (at: nat)
    requires i < |reports| && HasId(reports[i])
    ensures at < |Accepted(reports[..i + 1])| && Accepted(reports[..i + 1])[at] == reports[i].value
    ensures at + MAX_SEEN_EVENT_IDS >= |Accepted(reports[..i + 1])|
    ensures !IsDuplicate(reports, i) ==> at == |Accepted(reports[..i])| && |Accepted(reports[..i + 1])| == at + 1
  {
    var before := Accepted(reports[..i]);
    assert reports[..i + 1][..i] == reports[..i];
    if IsDuplicate(reports, i) {
      var window := Last(before, MAX_SEEN_EVENT_IDS);
      var k :| 0 <= k < |window| && window[k] == reports[i].value;
      at := |before| - |window| + k;
    } else {
      at := |before|;
    }
  }

  /** A repeat of an accepted id is caught unless MAX_SEEN_EVENT_IDS other ids
      were accepted in between, and counted again as soon as they were. */
  lemma RepeatIsCaughtUntilForgotten(reports: seq<Option<string>>, i: nat, j: nat)
    requires i < j < |reports| && HasId(reports[i]) && reports[j] == reports[i]
    requires !IsDuplicate(reports, i)
    requires forall k :: i < k < j && reports[k] == reports[i] ==> IsDuplicate(reports, k)
    ensures IsDuplicate(reports, j) <==> |Accepted(reports[..j])| - |Accepted(reports[..i + 1])| < MAX_SEEN_EVENT_IDS
  {
    var at := ReportedIdIsAccepted(reports, i);
    var all := Accepted(reports[..j]);
    AcceptedSince(reports, i + 1, j, reports[i].value);
    assert reports[..j][..i + 1] == reports[..i + 1];
    AcceptedGrows(reports[..j], i + 1);
    assert all[at] == reports[i].value;
    var window := Last(all, MAX_SEEN_EVENT_IDS);
    if at >= |all| - |window| {
      assert window[at - (|all| - |window|)] == reports[i].value;
    } else {
      forall k | 0 <= k < |window| ensures window[k] != reports[i].value {
        assert window[k] == all[|all| - |window| + k];
      }
    }
  }

  /** What is accepted between two points is not `id` when `id` was only repeated there. */
  lemma {:induction false} AcceptedSince(reports: seq<Option<string>>, from: nat, j: nat, id: string)
    requires from <= j <= |reports| && id != ""
    requires forall k :: from <= k < j && reports[k] == Some(id) ==> IsDuplicate(reports, k)
    ensures |Accepted(reports[..from])| <= |Accepted(reports[..j])|
    ensures forall p :: |Accepted(reports[..from])| <= p < |Accepted(reports[..j])| ==> Accepted(reports[..j])[p] != id
    decreases j
  {
    if from < j {
      assert reports[..j][..j - 1] == reports[..j - 1];
      AcceptedSince(reports, from, j - 1, id);
    }
  }

  /** So a repeat within the next MAX_SEEN_EVENT_IDS reports is always caught. */
  lemma {:induction false} EarlyRepeatIsCaught(reports: seq<Option<string>>, i: nat, j: nat)
    requires i < j < |reports| && HasId(reports[i]) && reports[j] == reports[i]
    requires j - i <= MAX_SEEN_EVENT_IDS && !IsDuplicate(reports, i)
    ensures IsDuplicate(reports, j)
    decreases j
  {
    forall k | i < k < j && reports[k] == reports[i] ensures IsDuplicate(reports, k) {
      EarlyRepeatIsCaught(reports, i, k);
    }
    RepeatIsCaughtUntilForgotten(reports, i, j);
    assert reports[..j][..i + 1] == reports[..i + 1];
    AcceptedGrows(reports[..j], i + 1);
  }
}
