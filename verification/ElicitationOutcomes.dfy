/** What becomes of answers and of decision rows. */
module ElicitationOutcomes {
  import opened Wrappers
  import opened Elicitation
  import opened ElicitationProperties

  // ---- Answers ----

  /** How many answers to a question were accepted in the first `i` steps. */
  ghost function Wins(states: seq<State>, steps: seq<Step>, id: string, i: nat): nat
    requires IsRun(states, steps) && i <= |steps|
  {
    if i == 0 then 0
    else Wins(states, steps, id, i - 1)
         + if steps[i - 1].Answer? && steps[i - 1].id == id && CanAnswer(states[i - 1], id) then 1 else 0
  }

  lemma StepAnswers(s: State, step: Step, id: string)
    requires Enabled(s, step)
    ensures var won := step.Answer? && step.id == id && CanAnswer(s, id);
            && (IsAnswered(Next(s, step), id) <==> IsAnswered(s, id) || won)
            && (won ==> !IsAnswered(s, id) && Next(s, step).questions[id].future == Done(step.value, step.at))
            && (IsAnswered(s, id) ==> Next(s, step).questions[id].future == s.questions[id].future)
  {
    hide LatencyMs, Resolution, Preview, Resolved;
  }

  /** At most one answer to a question is ever accepted, and exactly one if the question was answered. */
  lemma {:induction false} AnsweredAtMostOnce(states: seq<State>, steps: seq<Step>, id: string, i: nat)
    requires IsRun(states, steps) && i <= |steps|
    ensures Wins(states, steps, id, i) == if IsAnswered(states[i], id) then 1 else 0
  {
    hide Next, Enabled;
    if i > 0 {
      AnsweredAtMostOnce(states, steps, id, i - 1);
      StepAnswers(states[i - 1], steps[i - 1], id);
    }
  }

  /** Whoever is told the question was answered gets the value of an accepted answer. */
  lemma {:induction false} AnswersComeFromAnswer(states: seq<State>, steps: seq<Step>, id: string, i: nat)
    requires IsRun(states, steps) && i <= |steps| && IsAnswered(states[i], id)
    ensures exists j :: 0 <= j < i && steps[j].Answer? && steps[j].id == id && CanAnswer(states[j], id)
                        && states[i].questions[id].future == Done(steps[j].value, steps[j].at)
  {
    hide Next, Enabled;
    if i > 0 {
      StepAnswers(states[i - 1], steps[i - 1], id);
      if IsAnswered(states[i - 1], id) {
        AnswersComeFromAnswer(states, steps, id, i - 1);
      } else {
        assert steps[i - 1].Answer? && steps[i - 1].id == id;
      }
    } else {
      EmptyIsSound();
    }
  }

  // ---- Answers and deadlines ----

  lemma StepKeepsQuestion(s: State, step: Step, id: string)
    requires Enabled(s, step) && id in s.questions
    ensures id in Next(s, step).questions && Next(s, step).questions[id].timeoutS == s.questions[id].timeoutS
    ensures step.Publish? || (s.clock <= Next(s, step).clock == step.at)
    ensures step.Publish? ==> Next(s, step).clock == s.clock
  {
    hide Resolved, Preview;
  }

  lemma {:induction false} QuestionsKeepTimeouts(states: seq<State>, steps: seq<Step>, i: nat, j: nat, id: string)
    requires IsRun(states, steps) && i <= j <= |steps| && id in states[i].questions
    ensures id in states[j].questions && states[j].questions[id].timeoutS == states[i].questions[id].timeoutS
    ensures states[i].clock <= states[j].clock
    decreases j
  {
    hide Next, Enabled;
    if i < j {
      QuestionsKeepTimeouts(states, steps, i, j - 1, id);
      StepKeepsQuestion(states[j - 1], steps[j - 1], id);
    }
  }

  lemma {:induction false} AnswerStays(states: seq<State>, steps: seq<Step>, id: string, i: nat, j: nat)
    requires IsRun(states, steps) && i <= j <= |steps| && IsAnswered(states[i], id)
    ensures IsAnswered(states[j], id) && states[j].questions[id].future == states[i].questions[id].future
    decreases j
  {
    hide Next, Enabled;
    if i < j {
      AnswerStays(states, steps, id, i, j - 1);
      StepAnswers(states[j - 1], steps[j - 1], id);
    }
  }

  ghost predicate Accepts(s: State, step: Step, id: string) {
    step.Answer? && step.id == id && CanAnswer(s, id)
  }

  lemma AcceptedStays(states: seq<State>, steps: seq<Step>, id: string, a: nat, f: nat)
    requires IsRun(states, steps) && a < f <= |steps| && Accepts(states[a], steps[a], id)
    ensures IsAnswered(states[f], id) && states[f].questions[id].future == Done(steps[a].value, steps[a].at)
  {
    hide Next, Enabled;
    StepAnswers(states[a], steps[a], id);
    AnswerStays(states, steps, id, a + 1, f);
  }

  /** An answer accepted before the deadline of a wait reaches that wait, unless the wait is cancelled. */
  lemma TimelyAnswerArrives(states: seq<State>, steps: seq<Step>, id: string, a: nat, f: nat)
    requires IsRun(states, steps) && a < f < |steps| && Accepts(states[a], steps[a], id)
    requires EndsOn(states[f], steps[f], id) && steps[f].outcome != Cancelled
    requires steps[a].at < states[f].waiters[steps[f].waiter].deadline
    ensures steps[f].outcome == Answered
    ensures Reply(states[f].questions[id], steps[f].outcome) == Some(steps[a].value)
  {
    hide Next;
    AcceptedStays(states, steps, id, a, f);
  }

  /** A wait that times out began at least its timeout ago. If an answer was accepted all the same, that was after the
      wait began, at its deadline or later, and before it ended. */
  lemma TimeoutsAreDue(states: seq<State>, steps: seq<Step>, id: string, f: nat) returns (b: nat)
    requires IsRun(states, steps) && f < |steps| && EndsOn(states[f], steps[f], id) && steps[f].outcome == TimedOut
    ensures b < f && steps[b].Begin? && steps[b].waiter == steps[f].waiter && steps[b].id == id
    ensures id in states[f].questions
    ensures steps[b].at + states[f].questions[id].timeoutS <= steps[f].at
    ensures forall a :: 0 <= a < f && Accepts(states[a], steps[a], id) ==>
              b < a && steps[b].at + states[f].questions[id].timeoutS <= steps[a].at <= steps[f].at
  {
    hide Next;
    var waiter := states[f].waiters[steps[f].waiter];
    WaitersBegan(states, steps, f, steps[f].waiter);
    b :| 0 <= b < f && Begins(states[b], steps[b], steps[f].waiter, waiter);
    QuestionsKeepTimeouts(states, steps, b, f, id);
    forall a | 0 <= a < f && Accepts(states[a], steps[a], id)
      ensures b < a && waiter.deadline <= steps[a].at <= steps[f].at
    {
      AcceptedStays(states, steps, id, a, f);
      if a < b { AcceptedStays(states, steps, id, a, b); }
      ClockAt(states, steps, a, f, id);
    }
  }

  lemma ClockAt(states: seq<State>, steps: seq<Step>, a: nat, f: nat, id: string)
    requires IsRun(states, steps) && a < f < |steps| && Accepts(states[a], steps[a], id) && steps[f].Finish?
    ensures steps[a].at <= steps[f].at
  {
    hide Resolved, Preview;
    StepKeepsQuestion(states[a], steps[a], id);
    QuestionsKeepTimeouts(states, steps, a + 1, f, id);
  }

  // ---- Decision rows ----

  ghost predicate Final(s: State, id: string) {
    id in s.decisions && s.decisions[id].outcome.Some?
  }

  /** The step writes a decision row for the question: a wait for it ends, is not cancelled, and the row gets through. */
  predicate Decides(s: State, step: Step, id: string) {
    EndsOn(s, step, id) && step.outcome != Cancelled && step.recorded
  }

  /** The row it writes. */
  function Verdict(s: State, step: Step, id: string): Decision
    requires EndsOn(s, step, id) && id in s.questions
  {
    var source := if id in s.answerSource then s.answerSource[id] else "ws";
    Resolution(s.questions[id], step.outcome, source, LatencyMs(s.waiters[step.waiter].publishedAt, step.now))
  }

  lemma StepDecides(s: State, step: Step, id: string)
    requires Rooted(s) && Recorded(s) && Enabled(s, step)
    ensures Decides(s, step, id) ==>
              id in s.questions && Final(Next(s, step), id) && Next(s, step).decisions[id] == Verdict(s, step, id)
    ensures !Decides(s, step, id) ==>
              && (Final(Next(s, step), id) <==> Final(s, id))
              && (Final(s, id) ==> Next(s, step).decisions[id] == s.decisions[id])
  {
    hide LatencyMs, Preview, Abandoned;
  }

  lemma {:induction false} FinalIffDecided(states: seq<State>, steps: seq<Step>, id: string, i: nat)
    requires IsRun(states, steps) && i <= |steps|
    ensures Final(states[i], id) <==> exists k :: 0 <= k < i && Decides(states[k], steps[k], id)
  {
    hide Next, Enabled, Decides, Verdict, Accounted, Rooted, Recorded;
    if i > 0 {
      FinalIffDecided(states, steps, id, i - 1);
      RunKeepsInv(states, steps, i - 1);
      StepDecides(states[i - 1], steps[i - 1], id);
    } else {
      EmptyIsSound();
    }
  }

  /** A decision row holds what the last deciding step wrote; a later wait rewrites it if and only if it is not
      cancelled and its row gets through. */
  lemma DecisionIsTheLast(states: seq<State>, steps: seq<Step>, id: string, k: nat, i: nat)
    requires IsRun(states, steps) && k < i <= |steps| && Decides(states[k], steps[k], id)
    requires forall j :: k < j < i ==> !Decides(states[j], steps[j], id)
    ensures id in states[k].questions && Final(states[i], id)
    ensures states[i].decisions[id] == Verdict(states[k], steps[k], id)
  {
    hide Next, Enabled, Decides, Verdict, Accounted, Rooted, Recorded;
    RunKeepsInv(states, steps, k);
    StepDecides(states[k], steps[k], id);
    DecisionsAreFinal(states, steps, id, k + 1, i);
  }

  /** From one moment to a later one a decision row changes only by deciding steps in between. */
  lemma {:induction false} DecisionsAreFinal(states: seq<State>, steps: seq<Step>, id: string, i: nat, j: nat)
    requires IsRun(states, steps) && i <= j <= |steps| && Final(states[i], id)
    requires forall k :: i <= k < j ==> !Decides(states[k], steps[k], id)
    ensures Final(states[j], id) && states[j].decisions[id] == states[i].decisions[id]
    decreases j
  {
    hide Next, Enabled, Decides, Accounted, Rooted, Recorded;
    if i < j {
      DecisionsAreFinal(states, steps, id, i, j - 1);
      RunKeepsInv(states, steps, j - 1);
      StepDecides(states[j - 1], steps[j - 1], id);
    }
  }

  /** As long as no question has a second wait end, every decision is final. */
  lemma OneEndDecidesOnce(states: seq<State>, steps: seq<Step>, id: string, i: nat, j: nat)
    requires IsRun(states, steps) && i <= j <= |steps| && OneEndEach(states, steps, j) && Final(states[i], id)
    ensures Final(states[j], id) && states[j].decisions[id] == states[i].decisions[id]
  {
    hide Next, Enabled, Final;
    FinalIffDecided(states, steps, id, i);
    var d :| 0 <= d < i && Decides(states[d], steps[d], id);
    assert EndsOn(states[d], steps[d], id);
    DecisionsAreFinal(states, steps, id, i, j);
  }

  /** With one waiter per question every decision is final. */
  lemma OneWaiterDecidesOnce(states: seq<State>, steps: seq<Step>, id: string, i: nat, j: nat)
    requires IsRun(states, steps) && OneWaiter(steps) && i <= j <= |steps| && Final(states[i], id)
    ensures Final(states[j], id) && states[j].decisions[id] == states[i].decisions[id]
  {
    hide Next, Enabled, OneWaiter, Final;
    OneWaiterKeepsPaired(states, steps, j);
    LateIffEndedTwice(states, steps, j);
    OneEndDecidesOnce(states, steps, id, i, j);
  }

  /** A wait that outlived its question no longer knows who answered: its row says `ws`. */
  lemma LateRowsSayWs(states: seq<State>, steps: seq<Step>, id: string, j: nat, k: nat)
    requires IsRun(states, steps) && j < k < |steps|
    requires EndsOn(states[j], steps[j], id) && Decides(states[k], steps[k], id) && steps[k].outcome == Answered
    ensures Final(states[k + 1], id) && states[k + 1].decisions[id].source == Some("ws")
  {
    hide LatencyMs, Preview, Next;
    RunKeepsInv(states, steps, k);
    PendingUntilEnded(states, steps, k, id);
    StepDecides(states[k], steps[k], id);
  }

  // ---- What goes wrong ----

  /** The question, two waits for it, one answer over HTTP, and both waits ending. */
  const Twice: seq<Step> := [
    Publish("q", "s", "Proceed?", "abort", 30.0, 0.0, true), Begin(0, "q", 0.0), Begin(1, "q", 0.0),
    Answer("q", "yes", "poll", 1.0), Finish(0, Answered, 1.0, 1.0, true), Finish(1, Answered, 1.0, 1.0, true)]

  /** A second waiter counts the question as answered twice and rewrites who answered it. */
  lemma SecondWaiterRewrites() returns (states: seq<State>)
    ensures IsRun(states, Twice)
    ensures states[5].published == 1 && states[5].answered == 1 && states[5].late == 0
    ensures states[6].published == 1 && states[6].answered == 2 && states[6].late == 1
    ensures "q" in states[5].decisions && states[5].decisions["q"].source == Some("poll")
    ensures "q" in states[6].decisions && states[6].decisions["q"].source == Some("ws")
  {
    hide LatencyMs, Preview;
    var s1 := Next(Empty, Twice[0]);
    var s2 := Next(s1, Twice[1]);
    var s3 := Next(s2, Twice[2]);
    var s4 := Next(s3, Twice[3]);
    var s5 := Next(s4, Twice[4]);
    states := [Empty, s1, s2, s3, s4, s5, Next(s5, Twice[5])];
  }

  /** An answer accepted when the time is up, before the waiter has resumed. */
  const TooLate: seq<Step> := [
    Publish("q", "s", "Proceed?", "abort", 30.0, 0.0, true), Begin(0, "q", 0.0), Answer("q", "yes", "ws", 30.0),
    Finish(0, TimedOut, 30.0, 30.0, true)]

  /** It may be lost: it counts as accepted, and the asker gets the default. */
  lemma AcceptedAnswerMayBeLost() returns (states: seq<State>)
    ensures IsRun(states, TooLate)
    ensures Wins(states, TooLate, "q", 4) == 1
    ensures "q" in states[4].decisions && states[4].decisions["q"].outcome == Some(TimedOut)
    ensures states[4].decisions["q"].answer == Some("abort")
  {
    hide LatencyMs, Preview;
    var s1 := Next(Empty, TooLate[0]);
    var s2 := Next(s1, TooLate[1]);
    var s3 := Next(s2, TooLate[2]);
    states := [Empty, s1, s2, s3, Next(s3, TooLate[3])];
    AnsweredAtMostOnce(states, TooLate, "q", 4);
  }
}
