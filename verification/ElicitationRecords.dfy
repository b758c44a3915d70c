/** What callers are told and what the decision table says, in terms of what was asked and answered. */
module ElicitationRecords {
  import opened Wrappers
  import opened Elicitation
  import opened ElicitationProperties
  import opened ElicitationOutcomes

  predicate Publishes(step: Step, id: string) {
    step.Publish? && step.id == id
  }

  /** The question stands as the step published it. */
  predicate AsPublished(q: Question, step: Step)
    requires step.Publish?
  {
    q.session == step.session && q.text == step.text && q.defaultAnswer == step.defaultAnswer && q.timeoutS == step.timeoutS
  }

  lemma StepKeepsText(s: State, step: Step, id: string)
    requires Enabled(s, step)
    ensures id in s.questions ==>
              && id in Next(s, step).questions && !Publishes(step, id)
              && var q, q' := s.questions[id], Next(s, step).questions[id];
                 q'.session == q.session && q'.text == q.text && q'.defaultAnswer == q.defaultAnswer && q'.timeoutS == q.timeoutS
    ensures Publishes(step, id) ==> id in Next(s, step).questions && AsPublished(Next(s, step).questions[id], step)
    ensures id in Next(s, step).questions ==> id in s.questions || Publishes(step, id)
  {
    hide Resolved, Preview;
  }

  /** A question is what its one publication made it, in every later state. */
  lemma {:induction false} QuestionsAreAsPublished(states: seq<State>, steps: seq<Step>, id: string, p: nat, i: nat)
    requires IsRun(states, steps) && p < i <= |steps| && Publishes(steps[p], id)
    ensures id in states[i].questions && AsPublished(states[i].questions[id], steps[p])
    ensures forall r :: p < r < i ==> !Publishes(steps[r], id)
    decreases i
  {
    hide Next, Enabled;
    StepKeepsText(states[i - 1], steps[i - 1], id);
    if p < i - 1 { QuestionsAreAsPublished(states, steps, id, p, i - 1); }
  }

  lemma {:induction false} QuestionsArePublished(states: seq<State>, steps: seq<Step>, id: string, i: nat)
    requires IsRun(states, steps) && i <= |steps| && id in states[i].questions
    ensures exists p :: 0 <= p < i && Publishes(steps[p], id)
  {
    hide Next, Enabled;
    if i > 0 {
      StepKeepsText(states[i - 1], steps[i - 1], id);
      if id in states[i - 1].questions { QuestionsArePublished(states, steps, id, i - 1); }
    } else {
      EmptyIsSound();
    }
  }

  // ---- Times ----

  lemma StepKeepsTimes(s: State, step: Step, id: string)
    requires Enabled(s, step)
    ensures id in Next(s, step).publishTs ==>
              if Publishes(step, id) then Next(s, step).publishTs[id] == step.now
              else id in s.publishTs && Next(s, step).publishTs[id] == s.publishTs[id]
    ensures forall w :: w in Next(s, step).waiters && Next(s, step).waiters[w].question == id ==>
              || (w in s.waiters && s.waiters[w].question == id && s.waiters[w].publishedAt == Next(s, step).waiters[w].publishedAt)
              || (id in s.publishTs && Next(s, step).waiters[w].publishedAt == s.publishTs[id])
  {
    hide Resolved, Preview, Abandoned;
  }

  /** The publishing time on record is that of the publication, for the broker and for every wait. */
  lemma {:induction false} TimesArePublished(states: seq<State>, steps: seq<Step>, id: string, p: nat, i: nat)
    requires IsRun(states, steps) && p < i <= |steps| && Publishes(steps[p], id)
    ensures id in states[i].publishTs ==> states[i].publishTs[id] == steps[p].now
    ensures forall w :: w in states[i].waiters && states[i].waiters[w].question == id ==>
              states[i].waiters[w].publishedAt == steps[p].now
    decreases i
  {
    hide Next, Enabled;
    StepKeepsTimes(states[i - 1], steps[i - 1], id);
    QuestionsAreAsPublished(states, steps, id, p, i);
    if p < i - 1 {
      TimesArePublished(states, steps, id, p, i - 1);
    } else {
      NobodyWaitsYet(states, steps, id, p);
    }
  }

  lemma NobodyWaitsYet(states: seq<State>, steps: seq<Step>, id: string, p: nat)
    requires IsRun(states, steps) && p < |steps| && Publishes(steps[p], id)
    ensures id !in states[p].publishTs && forall w :: w in states[p].waiters ==> states[p].waiters[w].question != id
  {
    hide Next;
    RunKeepsInv(states, steps, p);
  }

  // ---- Sources ----

  lemma StepKeepsSource(s: State, step: Step, id: string)
    requires Enabled(s, step) && id in Next(s, step).pending && id in s.questions
    ensures id in s.pending
    ensures Accepts(s, step, id) ==> id in Next(s, step).answerSource && Next(s, step).answerSource[id] == step.source
    ensures !Accepts(s, step, id) && id in s.answerSource ==>
              id in Next(s, step).answerSource && Next(s, step).answerSource[id] == s.answerSource[id]
  {
    hide Resolved, Preview, Abandoned;
  }

  /** While an answered question is pending, the broker knows who answered. */
  lemma {:induction false} SourceIsKnown(states: seq<State>, steps: seq<Step>, id: string, a: nat, i: nat)
    requires IsRun(states, steps) && a < i <= |steps| && Accepts(states[a], steps[a], id) && id in states[i].pending
    ensures id in states[i].answerSource && states[i].answerSource[id] == steps[a].source
    decreases i
  {
    hide Next, Enabled;
    QuestionsKeepTimeouts(states, steps, a, i - 1, id);
    StepKeepsSource(states[i - 1], steps[i - 1], id);
    if a < i - 1 {
      SourceIsKnown(states, steps, id, a, i - 1);
      AcceptedStays(states, steps, id, a, i - 1);
    }
  }

  // ---- What is told and recorded ----

  /** A wait that times out returns the default the question was published with. */
  lemma TimedOutGetsDefault(states: seq<State>, steps: seq<Step>, id: string, p: nat, f: nat)
    requires IsRun(states, steps) && p < f < |steps| && Publishes(steps[p], id)
    requires EndsOn(states[f], steps[f], id) && steps[f].outcome == TimedOut
    ensures id in states[f].questions && Reply(states[f].questions[id], TimedOut) == Some(steps[p].defaultAnswer)
  {
    hide Next, Enabled;
    QuestionsAreAsPublished(states, steps, id, p, f);
  }

  /** Whole milliseconds from one time to another, none if that is earlier. */
  predicate Lasted(ms: nat, from: real, to: real) {
    if to <= from then ms == 0 else ms as real <= (to - from) * 1000.0 < ms as real + 1.0
  }

  /** The row a wait writes says what its caller is told and how the wait ended, and describes the question as it was
      published. */
  lemma RowsTellTheTruth(states: seq<State>, steps: seq<Step>, id: string, p: nat, f: nat)
    requires IsRun(states, steps) && p < f < |steps| && Publishes(steps[p], id)
    requires Decides(states[f], steps[f], id)
    ensures id in states[f].questions && id in states[f + 1].decisions
    ensures var row := states[f + 1].decisions[id];
            && row.answer == Reply(states[f].questions[id], steps[f].outcome)
            && row.outcome == Some(steps[f].outcome)
            && row.session == steps[p].session
            && row.preview <= steps[p].text && |row.preview| == (if |steps[p].text| < 120 then |steps[p].text| else 120)
            && Lasted(row.latencyMs, steps[p].now, steps[f].now)
  {
    hide Next;
    QuestionsAreAsPublished(states, steps, id, p, f);
    TimesArePublished(states, steps, id, p, f);
    RunKeepsInv(states, steps, f);
    StepDecides(states[f], steps[f], id);
    LatencyLasts(steps[p].now, steps[f].now);
    RowIs(states[f], steps[f], id);
  }

  lemma RowIs(s: State, step: Step, id: string)
    requires Enabled(s, step) && EndsOn(s, step, id) && id in s.questions && step.outcome != Cancelled
    ensures var row, q := Verdict(s, step, id), s.questions[id];
            && row.answer == Reply(q, step.outcome) && row.outcome == Some(step.outcome) && row.session == q.session
            && row.preview == Preview(q.text) && row.latencyMs == LatencyMs(s.waiters[step.waiter].publishedAt, step.now)
            && (step.outcome == TimedOut ==> row.source == Some("timeout"))
            && (step.outcome == Answered ==>
                  row.source == Some(if id in s.answerSource then s.answerSource[id] else "ws"))
  {
    hide Preview, LatencyMs;
  }

  lemma LatencyLasts(from: real, to: real)
    ensures Lasted(LatencyMs(from, to), from, to)
  {
  }

  /** It says that nobody answered in time, or who did: whoever gave the accepted answer, if this is the first wait on
      the question to end. */
  lemma RowsNameTheSource(states: seq<State>, steps: seq<Step>, id: string, a: nat, f: nat)
    requires IsRun(states, steps) && f < |steps| && Decides(states[f], steps[f], id)
    ensures id in states[f + 1].decisions
    ensures steps[f].outcome == TimedOut ==> states[f + 1].decisions[id].source == Some("timeout")
    ensures a < f && Accepts(states[a], steps[a], id) && NoEnd(states, steps, f, id) && steps[f].outcome == Answered ==>
              states[f + 1].decisions[id].source == Some(steps[a].source)
  {
    hide Next;
    RunKeepsInv(states, steps, f);
    StepDecides(states[f], steps[f], id);
    RowIs(states[f], steps[f], id);
    if a < f && Accepts(states[a], steps[a], id) && NoEnd(states, steps, f, id) && steps[f].outcome == Answered {
      PendingUntilEnded(states, steps, f, id);
      SourceIsKnown(states, steps, id, a, f);
    }
  }

  /** A recorded publication shows the question as pending, without answer, until a wait decides it. */
  lemma {:induction false} PublishedRowIsPending(states: seq<State>, steps: seq<Step>, id: string, p: nat, i: nat)
    requires IsRun(states, steps) && p < i <= |steps| && Publishes(steps[p], id) && steps[p].recorded
    requires forall k :: p < k < i ==> !Decides(states[k], steps[k], id)
    ensures id in states[i].decisions
    ensures var row := states[i].decisions[id];
            && row.outcome == None && row.answer == None && row.source == None && row.session == steps[p].session
            && row.preview <= steps[p].text && |row.preview| == (if |steps[p].text| < 120 then |steps[p].text| else 120)
    decreases i
  {
    hide Next, Enabled, Decides;
    if p == i - 1 {
      PublishedRow(states[p], steps[p], id);
    } else {
      PublishedRowIsPending(states, steps, id, p, i - 1);
      QuestionsAreAsPublished(states, steps, id, p, i);
      OtherStepsLeaveRow(states[i - 1], steps[i - 1], id);
    }
  }

  lemma PublishedRow(s: State, step: Step, id: string)
    requires Enabled(s, step) && Publishes(step, id) && step.recorded
    ensures id in Next(s, step).decisions
    ensures Next(s, step).decisions[id] == Decision(step.session, Preview(step.text), None, None, None, 0)
  {
    hide Preview;
  }

  lemma OtherStepsLeaveRow(s: State, step: Step, id: string)
    requires Enabled(s, step) && !Publishes(step, id) && !Decides(s, step, id) && id in s.decisions
    ensures id in Next(s, step).decisions && Next(s, step).decisions[id] == s.decisions[id]
  {
    hide Preview, Resolution, LatencyMs, Abandoned;
  }

  // ---- When an answer is taken ----

  /** A wait for the question has begun. */
  ghost predicate Awaited(states: seq<State>, steps: seq<Step>, i: nat, id: string)
    requires i <= |steps| < |states|
  {
    exists j :: 0 <= j < i && steps[j].Begin? && steps[j].id == id && id in states[j].pending
  }

  lemma FinishFuture(s: State, step: Step, id: string)
    requires Rooted(s) && Enabled(s, step) && step.Finish? && id in Next(s, step).pending
    ensures id in s.pending && id in s.questions && id in Next(s, step).questions
    ensures Next(s, step).questions[id].future == s.questions[id].future
  {
    hide Resolved;
  }

  lemma StepFuture(s: State, step: Step, id: string)
    requires Rooted(s) && s.publishTs.Keys == s.pending && Enabled(s, step) && id in Next(s, step).pending
    ensures id in s.questions ==>
              && id in s.pending
              && var f, f' := s.questions[id].future, Next(s, step).questions[id].future;
                 (f' == Unmade <==> f == Unmade && !(step.Begin? && step.id == id)) && (f' == Revoked ==> f == Revoked)
    ensures id !in s.questions ==> id in Next(s, step).questions && Next(s, step).questions[id].future == Unmade
    ensures id in Next(s, step).questions
  {
    hide Preview;
    if step.Finish? {
      hide *;
      FinishFuture(s, step, id);
    }
  }

  lemma {:induction false} FutureTells(states: seq<State>, steps: seq<Step>, i: nat, id: string)
    requires IsRun(states, steps) && i <= |steps| && id in states[i].pending
    ensures id in states[i].questions && states[i].questions[id].future != Revoked
    ensures states[i].questions[id].future == Unmade <==> !Awaited(states, steps, i, id)
  {
    hide Next, Enabled, Rooted, Recorded;
    if i == 0 {
      EmptyIsSound();
    } else {
      var s, step := states[i - 1], steps[i - 1];
      RunKeepsInv(states, steps, i - 1);
      StepFuture(s, step, id);
      if id in s.questions {
        FutureTells(states, steps, i - 1, id);
      } else {
        NeverAwaited(states, steps, i - 1, id);
        assert !(step.Begin? && step.id == id && id in s.pending) by { PendingUntilEnded(states, steps, i - 1, id); }
      }
    }
  }

  lemma NeverAwaited(states: seq<State>, steps: seq<Step>, i: nat, id: string)
    requires IsRun(states, steps) && i <= |steps| && id !in states[i].questions
    ensures !Awaited(states, steps, i, id)
  {
    hide Next, Enabled;
    forall j | 0 <= j < i ensures id !in states[j].pending {
      PendingUntilEnded(states, steps, j, id);
      if id in states[j].questions { QuestionsKeepTimeouts(states, steps, j, i, id); }
    }
  }

  /** An answer is taken exactly when a wait for the question has begun, none has ended, and no answer was taken yet. */
  lemma AnswerIsTakenWhen(states: seq<State>, steps: seq<Step>, i: nat, id: string)
    requires IsRun(states, steps) && i <= |steps|
    ensures CanAnswer(states[i], id) <==>
            Awaited(states, steps, i, id) && NoEnd(states, steps, i, id) && Wins(states, steps, id, i) == 0
  {
    hide Next, Enabled;
    AnsweredAtMostOnce(states, steps, id, i);
    PendingUntilEnded(states, steps, i, id);
    if id in states[i].pending { FutureTells(states, steps, i, id); }
    if id !in states[i].questions { NeverAwaited(states, steps, i, id); }
  }

  // ---- The counters ----

  function Published(steps: seq<Step>, i: nat): nat
    requires i <= |steps|
  {
    if i == 0 then 0 else Published(steps, i - 1) + if steps[i - 1].Publish? then 1 else 0
  }

  function Ended(steps: seq<Step>, i: nat, o: Outcome): nat
    requires i <= |steps|
  {
    if i == 0 then 0
    else Ended(steps, i - 1, o) + if steps[i - 1].Finish? && steps[i - 1].outcome == o then 1 else 0
  }

  lemma StepCounts(s: State, step: Step)
    requires Enabled(s, step)
    ensures Next(s, step).published == s.published + (if step.Publish? then 1 else 0)
    ensures Next(s, step).answered == s.answered + (if step.Finish? && step.outcome == Answered then 1 else 0)
    ensures Next(s, step).timedOut == s.timedOut + (if step.Finish? && step.outcome == TimedOut then 1 else 0)
  {
    hide Resolved, Preview, Abandoned;
  }

  /** Each counter of the broker counts what it is called after. */
  lemma {:induction false} CountersCount(states: seq<State>, steps: seq<Step>, i: nat)
    requires IsRun(states, steps) && i <= |steps|
    ensures states[i].published == Published(steps, i)
    ensures states[i].answered == Ended(steps, i, Answered)
    ensures states[i].timedOut == Ended(steps, i, TimedOut)
  {
    hide Next, Enabled;
    if i > 0 {
      CountersCount(states, steps, i - 1);
      StepCounts(states[i - 1], steps[i - 1]);
    }
  }
}
