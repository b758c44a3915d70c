/** Reading a pull request's state and waiting until it can be acted on. */
module PrChecks {
  import opened Wrappers

  datatype PrState = Open | Merged | Closed

  datatype ChecksState = Pending | Success | Failure | NoChecks

  datatype Review = Approved | ChangesRequested | ReviewRequired | NoReview

  datatype PrStatus = PrStatus(state: PrState, merged: bool, checks: ChecksState, review: Review)

  /** One entry of the check rollup as it is compared: a missing field is empty, letters are upper case. */
  datatype Check = Check(state: string, conclusion: string)

  /** What the command line tool prints; fields may be missing, and a lone check need not be in a list. */
  datatype RawCheck = RawCheck(state: Option<string>, conclusion: Option<string>)

  datatype RawRollup = NoRollup | Lone(check: RawCheck) | Listed(checks: seq<RawCheck>)

  datatype RawView = RawView(state: Option<string>, merged: bool, rollup: RawRollup, reviewDecision: Option<string>)

  // ---- Reading a view ----

  function UpperChar(c: char): char {
    if 'a' <= c <= 'z' then c - 'a' + 'A' else c
  }

  function Upper(s: string): string {
    seq(|s|, i requires 0 <= i < |s| => UpperChar(s[i]))
  }

  function Text(field: Option<string>): string {
    if field.Some? then Upper(field.value) else ""
  }

  function Entry(raw: RawCheck): Check {
    Check(Text(raw.state), Text(raw.conclusion))
  }

  function Entries(rollup: seq<RawCheck>): seq<Check> {
    seq(|rollup|, i requires 0 <= i < |rollup| => Entry(rollup[i]))
  }

  function Checks(rollup: RawRollup): seq<RawCheck> {
    match rollup
    case NoRollup => []
    case Lone(c) => [c]
    case Listed(cs) => cs
  }

  /** The status a view stands for. */
  ghost function Parsed(raw: RawView): PrStatus {
    var state := Text(raw.state);
    PrStatus(if state == "MERGED" then Merged else if state == "CLOSED" then Closed else Open,
             raw.merged, Reduced(Entries(Checks(raw.rollup))), NormaliseReview(Text(raw.reviewDecision)))
  }

  // ---- Reducing the rollup ----

  predicate Unsettled(c: Check) {
    c.state == "PENDING" || c.state == "QUEUED" || c.state == "IN_PROGRESS"
  }

  predicate Fails(c: Check) {
    !Unsettled(c) &&
    (c.conclusion == "FAILURE" || c.conclusion == "CANCELLED" || c.conclusion == "TIMED_OUT" ||
     c.conclusion == "ACTION_REQUIRED")
  }

  /** The state a rollup stands for: one settled failure decides, then anything unsettled. */
  ghost function Reduced(rollup: seq<Check>): ChecksState {
    if rollup == [] then NoChecks
    else if exists c :: c in rollup && Fails(c) then Failure
    else if exists c :: c in rollup && Unsettled(c) then Pending
    else Success
  }

  method ReduceChecks(rollup: seq<RawCheck>) returns (r: ChecksState)
    ensures r == Reduced(Entries(rollup))
    ensures r == Success <==> rollup != [] && forall c :: c in Entries(rollup) ==> !Unsettled(c) && !Fails(c)
    ensures r == NoChecks <==> rollup == []
    ensures r == Failure <==> exists c :: c in Entries(rollup) && Fails(c)
    ensures r == Pending <==> (exists c :: c in Entries(rollup) && Unsettled(c)) &&
                              forall c :: c in Entries(rollup) ==> !Fails(c)
  {
    if rollup == [] { return NoChecks; }
    var hasPending := false;
    ghost var entries := Entries(rollup);
    hide Text, Unsettled, Fails;
    for i := 0 to |rollup|
      invariant forall c :: c in entries[..i] ==> !Fails(c)
      invariant hasPending <==> exists c :: c in entries[..i] && Unsettled(c)
    {
      var check := Entry(rollup[i]);
      assert entries[..i + 1] == entries[..i] + [check];
      if Unsettled(check) {
        hasPending := true;
        assert !Fails(check) by { UnsettledIsNoFailure(check); }
        continue;
      }
      if Fails(check) {
        assert entries[i] == check;
        return Failure;
      }
    }
    assert entries[..|rollup|] == entries;
    r := if hasPending then Pending else Success;
  }

  lemma UnsettledIsNoFailure(c: Check)
    requires Unsettled(c)
    ensures !Fails(c)
  {
  }

  /** Whatever conclusion nobody lists counts as success, in any state but the three unsettled ones: "success" does not
      mean that every check succeeded. */
  lemma UnknownConclusionIsSuccess(c: Check)
    ensures Reduced([c]) == Success <==>
            c.state !in {"PENDING", "QUEUED", "IN_PROGRESS"} &&
            c.conclusion !in {"FAILURE", "CANCELLED", "TIMED_OUT", "ACTION_REQUIRED"}
  {
    assert c in [c];
  }

  /** In particular a check whose state, not its conclusion, says that it failed. */
  lemma FailedStateIsSuccess()
    ensures Reduced(Entries([RawCheck(Some("FAILURE"), None)])) == Success
    ensures Reduced(Entries([RawCheck(Some("ERROR"), None)])) == Success
  {
    assert Upper("FAILURE") == "FAILURE" && Upper("ERROR") == "ERROR";
    var a, b := Check("FAILURE", ""), Check("ERROR", "");
    assert Entries([RawCheck(Some("FAILURE"), None)]) == [a] && Entries([RawCheck(Some("ERROR"), None)]) == [b];
    UnknownConclusionIsSuccess(a);
    UnknownConclusionIsSuccess(b);
  }

  /** Case does not matter: only small letters change, to the capital of the same letter. */
  lemma UpperChanges(s: string, i: nat)
    requires i < |s|
    ensures |Upper(s)| == |s|
    ensures Upper(s)[i] as int == if 'a' <= s[i] <= 'z' then s[i] as int - 32 else s[i] as int
  {
  }

  function NormaliseReview(value: string): Review {
    if value == "APPROVED" then Approved
    else if value == "CHANGES_REQUESTED" then ChangesRequested
    else if value == "REVIEW_REQUIRED" then ReviewRequired
    else NoReview
  }

  method ParsePrStatus(raw: RawView) returns (s: PrStatus)
    ensures s == Parsed(raw)
    ensures s.checks == Success <==> Checks(raw.rollup) != [] &&
                                     forall c :: c in Entries(Checks(raw.rollup)) ==> !Unsettled(c) && !Fails(c)
  {
    hide Text, Reduced;
    var checks := ReduceChecks(Checks(raw.rollup));
    var text := Text(raw.state);
    var state := if text == "MERGED" then Merged else if text == "CLOSED" then Closed else Open;
    s := PrStatus(state, raw.merged, checks, NormaliseReview(Text(raw.reviewDecision)));
  }

  // ---- Waiting ----

  /** What one poll brings: a status, or an error from the command line tool. */
  datatype Poll = Seen(status: PrStatus) | Broke

  datatype WaitOutcome = Ready(status: PrStatus) | TimedOut | Raised

  predicate Landed(s: PrStatus) {
    s.merged || s.state == Merged
  }

  /** The waiting loop returns on this status. */
  predicate Stops(s: PrStatus) {
    || Landed(s)
    || s.state == Closed
    || s.review == ChangesRequested
    || s.checks == Failure
    || (s.checks == Success && (s.review == Approved || s.review == NoReview))
  }

  /** `polls` are the answers obtained up to the deadline; the loop polls at least once. */
  function WaitResult(polls: seq<Poll>): WaitOutcome {
    if polls == [] then TimedOut
    else match polls[0]
      case Broke => Raised
      case Seen(s) => if Stops(s) then Ready(s) else WaitResult(polls[1..])
  }

  method WaitForChecks(polls: seq<Poll>) returns (r: WaitOutcome)
    ensures r == WaitResult(polls)
  {
    for i := 0 to |polls|
      invariant WaitResult(polls) == WaitResult(polls[i..])
    {
      match polls[i] {
        case Broke => return Raised;
        case Seen(status) =>
          if Landed(status) || status.state == Closed { return Ready(status); }
          if status.review == ChangesRequested { return Ready(status); }
          if status.checks == Failure { return Ready(status); }
          if status.checks == Success && (status.review == Approved || status.review == NoReview) {
            return Ready(status);
          }
      }
    }
    r := TimedOut;
  }

  /** The wait goes on exactly while the pull request is open and unmerged, nothing has failed, no changes are asked
      for, and something is missing: settled checks, any checks at all, or a required review. */
  lemma WaitGoesOn(s: PrStatus)
    ensures !Stops(s) <==>
            && s.state == Open && !s.merged && s.checks != Failure && s.review != ChangesRequested
            && (s.checks == Pending || s.checks == NoChecks || s.review == ReviewRequired)
  {
  }

  /** In terms of what the tool prints. */
  lemma WaitGoesOnView(raw: RawView)
    ensures var checks, review, state := Entries(Checks(raw.rollup)), Text(raw.reviewDecision), Text(raw.state);
            !Stops(Parsed(raw)) <==>
            && state != "MERGED" && state != "CLOSED" && !raw.merged && review != "CHANGES_REQUESTED"
            && (forall c :: c in checks ==> !Fails(c))
            && (checks == [] || review == "REVIEW_REQUIRED" || exists c :: c in checks && Unsettled(c))
  {
    hide Text, Unsettled, Fails;
  }

  ghost predicate LeavesOpen(p: Poll) {
    p.Seen? && !Stops(p.status)
  }

  /** Poll `k` is the first one that decides, and it decides `outcome`. */
  ghost predicate DecidedAt(polls: seq<Poll>, k: nat, outcome: WaitOutcome) {
    && k < |polls|
    && (forall i :: 0 <= i < k ==> LeavesOpen(polls[i]))
    && match polls[k]
       case Broke => outcome == Raised
       case Seen(s) => Stops(s) && outcome == Ready(s)
  }

  /** The wait ends on the first decisive poll; it times out exactly when every poll leaves the matter open. */
  lemma {:induction false} WaitIsFirstDecision(polls: seq<Poll>)
    ensures WaitResult(polls) == TimedOut <==> forall p :: p in polls ==> LeavesOpen(p)
    ensures WaitResult(polls) != TimedOut ==> exists k: nat :: DecidedAt(polls, k, WaitResult(polls))
  {
    if polls != [] {
      assert polls[0] in polls;
      if LeavesOpen(polls[0]) {
        WaitIsFirstDecision(polls[1..]);
        if WaitResult(polls) != TimedOut {
          var k: nat :| DecidedAt(polls[1..], k, WaitResult(polls));
          assert polls[k + 1] == polls[1..][k];
          assert forall i :: 0 < i <= k ==> polls[i] == polls[1..][i - 1];
          assert DecidedAt(polls, k + 1, WaitResult(polls));
        }
      } else {
        assert DecidedAt(polls, 0, WaitResult(polls));
      }
    }
  }

  /** A repository without checks is never found ready: an open, unrejected pull request times out. */
  lemma {:induction false} NoChecksNeverReady(polls: seq<Poll>)
    requires forall p :: p in polls ==> p.Seen? && p.status.state == Open && !p.status.merged &&
                                        p.status.checks == NoChecks && p.status.review != ChangesRequested
    ensures WaitResult(polls) == TimedOut
  {
    if polls != [] {
      assert polls[0] in polls;
      NoChecksNeverReady(polls[1..]);
    }
  }

  /** After the wait, what is neither rejected, red nor merged is green and unopposed, or closed. */
  lemma OnlyGreenOrClosedRemains(polls: seq<Poll>)
    requires WaitResult(polls).Ready?
    ensures var s := WaitResult(polls).status;
            s.review != ChangesRequested && s.checks != Failure && !Landed(s)
            <==> !Landed(s) && ((s.checks == Success && (s.review == Approved || s.review == NoReview))
                                || (s.state == Closed && s.review != ChangesRequested && s.checks != Failure))
  {
    WaitIsFirstDecision(polls);
  }
}
