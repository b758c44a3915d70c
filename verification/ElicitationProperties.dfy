/** What the broker keeps over every run. */
module ElicitationProperties {
  import opened Wrappers
  import opened Elicitation

  /** The states a run passes through. */
  ghost predicate IsRun(states: seq<State>, steps: seq<Step>) {
    && |states| == |steps| + 1 && states[0] == Empty
    && forall i :: 0 <= i < |steps| ==> Enabled(states[i], steps[i]) && states[i + 1] == Next(states[i], steps[i])
  }

  ghost predicate Inv(s: State) {
    Accounted(s) && Rooted(s) && Recorded(s)
  }

  ghost predicate Accounted(s: State) {
    && s.published + s.late == s.answered + s.timedOut + s.cancelled + |s.pending|
    && s.publishTs.Keys == s.pending
    && s.answerSource.Keys <= s.pending
  }

  ghost predicate Rooted(s: State) {
    && s.pending <= s.questions.Keys
    && (forall w :: w in s.waiters ==> s.waiters[w].question in s.questions)
    && (forall w :: w in s.waiters ==> s.questions[s.waiters[w].question].future != Unmade)
    && (forall id :: id in s.answerSource ==> id in s.questions && s.questions[id].future.Done?)
  }

  ghost predicate Recorded(s: State) {
    && s.decisions.Keys <= s.questions.Keys
    && (forall id :: id in s.decisions && s.decisions[id].outcome.Some? ==> id !in s.pending)
  }

  lemma FinishAccounts(s: State, w: nat, outcome: Outcome, now: real, at: real, recorded: bool)
    requires Accounted(s) && Enabled(s, Finish(w, outcome, now, at, recorded))
    ensures Accounted(Next(s, Finish(w, outcome, now, at, recorded)))
  {
    hide Resolved, Abandoned;
    DropAccounts(Settled(s, w, outcome, now, at, recorded), w);
  }

  lemma DropAccounts(s: State, w: nat)
    requires w in s.waiters
    requires s.published + s.late + 1 == s.answered + s.timedOut + s.cancelled + |s.pending|
    requires s.publishTs.Keys == s.pending && s.answerSource.Keys <= s.pending
    ensures Accounted(Dropped(s, w))
  {
    var id := s.waiters[w].question;
    if id !in s.pending { assert s.pending - {id} == s.pending; }
  }

  lemma FinishRoots(s: State, w: nat, outcome: Outcome, now: real, at: real, recorded: bool)
    requires Rooted(s) && Enabled(s, Finish(w, outcome, now, at, recorded))
    ensures Rooted(Next(s, Finish(w, outcome, now, at, recorded)))
  {
    hide Resolved;
  }

  lemma FinishRecords(s: State, w: nat, outcome: Outcome, now: real, at: real, recorded: bool)
    requires Recorded(s) && Enabled(s, Finish(w, outcome, now, at, recorded))
    ensures Recorded(Next(s, Finish(w, outcome, now, at, recorded)))
  {
    hide LatencyMs, Resolution, Abandoned;
  }

  lemma StepKeepsInv(s: State, step: Step)
    requires Inv(s) && Enabled(s, step)
    ensures Inv(Next(s, step))
  {
    hide Next, Enabled, Accounted, Rooted, Recorded;
    match step {
      case Publish(_, _, _, _, _, _, _) => PublishKeepsInv(s, step);
      case Begin(_, _, _) => BeginKeepsInv(s, step);
      case Answer(_, _, _, _) => AnswerKeepsInv(s, step);
      case Finish(w, outcome, now, at, recorded) =>
        FinishAccounts(s, w, outcome, now, at, recorded);
        FinishRoots(s, w, outcome, now, at, recorded);
        FinishRecords(s, w, outcome, now, at, recorded);
    }
  }

  lemma OneMore(pending: set<string>, times: map<string, real>, id: string, now: real)
    requires id !in pending && times.Keys == pending
    ensures |pending + {id}| == |pending| + 1 && times[id := now].Keys == pending + {id}
  {
  }

  lemma PublishAccounts(s: State, step: Step)
    requires Accounted(s) && s.pending <= s.questions.Keys && Enabled(s, step) && step.Publish?
    ensures Accounted(Next(s, step))
  {
    hide Preview;
    OneMore(s.pending, s.publishTs, step.id, step.now);
  }

  lemma PublishRoots(s: State, step: Step)
    requires Rooted(s) && Enabled(s, step) && step.Publish?
    ensures Rooted(Next(s, step))
  {
    hide Preview;
  }

  lemma PublishRecords(s: State, step: Step)
    requires Recorded(s) && Enabled(s, step) && step.Publish?
    ensures Recorded(Next(s, step))
  {
    hide Preview;
  }

  lemma PublishKeepsInv(s: State, step: Step)
    requires Inv(s) && Enabled(s, step) && step.Publish?
    ensures Inv(Next(s, step))
  {
    hide Next, Enabled, Accounted, Recorded;
    PublishAccounts(s, step);
    PublishRoots(s, step);
    PublishRecords(s, step);
  }

  lemma BeginKeepsInv(s: State, step: Step)
    requires Inv(s) && Enabled(s, step) && step.Begin?
    ensures Inv(Next(s, step))
  {
  }

  lemma AnswerKeepsInv(s: State, step: Step)
    requires Inv(s) && Enabled(s, step) && step.Answer?
    ensures Inv(Next(s, step))
  {
  }

  lemma {:induction false} RunKeepsInv(states: seq<State>, steps: seq<Step>, i: nat)
    requires IsRun(states, steps) && i < |states|
    ensures Inv(states[i])
  {
    hide Next, Enabled;
    if i == 0 { EmptyIsSound(); }
    else {
      RunKeepsInv(states, steps, i - 1);
      StepKeepsInv(states[i - 1], steps[i - 1]);
    }
  }

  lemma EmptyIsSound()
    ensures Inv(Empty)
  {
  }

  // ---- Conservation ----

  /** The step ends a wait for the question. */
  predicate EndsOn(s: State, step: Step, id: string) {
    step.Finish? && step.waiter in s.waiters && s.waiters[step.waiter].question == id
  }

  ghost predicate NoEnd(states: seq<State>, steps: seq<Step>, i: nat, id: string)
    requires i <= |steps| < |states|
  {
    forall j :: 0 <= j < i ==> !EndsOn(states[j], steps[j], id)
  }

  /** Among the first `i` steps at most one ended a wait for each question. */
  ghost predicate OneEndEach(states: seq<State>, steps: seq<Step>, i: nat)
    requires i <= |steps| < |states|
  {
    forall id, j, k :: 0 <= j < k < i && EndsOn(states[j], steps[j], id) ==> !EndsOn(states[k], steps[k], id)
  }

  lemma FinishPending(s: State, step: Step, id: string)
    requires Rooted(s) && Enabled(s, step) && step.Finish?
    ensures id in Next(s, step).questions <==> id in s.questions
    ensures id in Next(s, step).pending <==> id in s.pending && !EndsOn(s, step, id)
    ensures EndsOn(s, step, id) ==> id in s.questions
  {
    hide Resolved, Abandoned;
  }

  lemma StepPending(s: State, step: Step, id: string)
    requires Rooted(s) && Enabled(s, step)
    ensures var published := step.Publish? && step.id == id;
            && (id in Next(s, step).questions <==> id in s.questions || published)
            && (published ==> id !in s.questions)
            && (id in Next(s, step).pending <==> (id in s.pending || published) && !EndsOn(s, step, id))
            && (EndsOn(s, step, id) ==> id in s.questions)
  {
    hide Preview;
    if step.Finish? {
      hide *;
      FinishPending(s, step, id);
    }
  }

  /** A question stays pending until the first wait for it ends. */
  lemma {:induction false} PendingUntilEnded(states: seq<State>, steps: seq<Step>, i: nat, id: string)
    requires IsRun(states, steps) && i <= |steps|
    ensures id in states[i].pending <==> id in states[i].questions && NoEnd(states, steps, i, id)
    ensures id !in states[i].questions ==> NoEnd(states, steps, i, id)
  {
    hide Next, Enabled, EndsOn, Accounted, Rooted, Recorded;
    if i > 0 {
      PendingUntilEnded(states, steps, i - 1, id);
      RunKeepsInv(states, steps, i - 1);
      StepPending(states[i - 1], steps[i - 1], id);
    } else {
      EmptyIsSound();
    }
  }

  lemma StepLate(s: State, step: Step)
    requires Enabled(s, step)
    ensures Next(s, step).late == s.late + if step.Finish? && s.waiters[step.waiter].question !in s.pending then 1 else 0
  {
    hide Resolved, Abandoned, Preview;
  }

  /** No wait outlived its question exactly when no question had a second wait end. */
  lemma {:induction false} LateIffEndedTwice(states: seq<State>, steps: seq<Step>, i: nat)
    requires IsRun(states, steps) && i <= |steps|
    ensures states[i].late == 0 <==> OneEndEach(states, steps, i)
  {
    hide Next, Accounted, Recorded;
    if i > 0 {
      var s, step := states[i - 1], steps[i - 1];
      LateIffEndedTwice(states, steps, i - 1);
      RunKeepsInv(states, steps, i - 1);
      StepLate(s, step);
      if step.Finish? {
        var id := s.waiters[step.waiter].question;
        PendingUntilEnded(states, steps, i - 1, id);
        assert EndsOn(s, step, id);
        if id !in s.pending {
          var j :| 0 <= j < i - 1 && EndsOn(states[j], steps[j], id);
          assert !OneEndEach(states, steps, i);
        }
      }
    } else {
      EmptyIsSound();
    }
  }

  /** In every reachable state every question is accounted for exactly when no question had a second wait end; the two
      side tables never hold an entry for a question that is no longer pending. */
  lemma QuestionsAreConserved(states: seq<State>, steps: seq<Step>, i: nat)
    requires IsRun(states, steps) && i <= |steps|
    ensures var s := states[i];
            && (s.published == s.answered + s.timedOut + s.cancelled + |s.pending| <==> OneEndEach(states, steps, i))
            && s.published <= s.answered + s.timedOut + s.cancelled + |s.pending|
            && s.publishTs.Keys == s.pending && s.answerSource.Keys <= s.pending
  {
    hide Next, Enabled, OneEndEach, Rooted, Recorded;
    RunKeepsInv(states, steps, i);
    LateIffEndedTwice(states, steps, i);
  }

  // ---- One waiter per question ----

  ghost predicate OneWaiter(steps: seq<Step>) {
    forall i, j :: 0 <= i < j < |steps| && steps[i].Begin? && steps[j].Begin? ==> steps[i].id != steps[j].id
  }

  /** No wait shares its question, and none has outlived it. */
  ghost predicate Paired(s: State) {
    && s.late == 0
    && (forall w :: w in s.waiters ==> s.waiters[w].question in s.pending)
    && (forall w, u :: w in s.waiters && u in s.waiters && s.waiters[w].question == s.waiters[u].question ==> w == u)
  }

  ghost predicate IsAnswered(s: State, id: string) {
    id in s.questions && s.questions[id].future.Done?
  }

  /** The step begins this wait in this state. */
  ghost predicate Begins(s: State, step: Step, w: nat, waiter: Waiter) {
    && step.Begin? && step.waiter == w && step.id == waiter.question
    && waiter.question in s.questions && waiter.deadline == step.at + s.questions[waiter.question].timeoutS
    && (waiter.answeredAlready <==> IsAnswered(s, waiter.question))
  }

  /** Every wait under way began, on its question, with its deadline. */
  lemma {:induction false} WaitersBegan(states: seq<State>, steps: seq<Step>, i: nat, w: nat)
    requires IsRun(states, steps) && i < |states| && w in states[i].waiters
    ensures exists j :: 0 <= j < i && Begins(states[j], steps[j], w, states[i].waiters[w])
  {
    hide Begins;
    if i > 0 {
      var before, step := states[i - 1], steps[i - 1];
      assert states[i] == Next(before, step);
      if w in before.waiters && before.waiters[w] == states[i].waiters[w] {
        WaitersBegan(states, steps, i - 1, w);
      } else {
        NewWaiter(before, step, w);
      }
    }
  }

  lemma NewWaiter(s: State, step: Step, w: nat)
    requires Enabled(s, step) && w in Next(s, step).waiters
    requires w in s.waiters ==> s.waiters[w] != Next(s, step).waiters[w]
    ensures Begins(s, step, w, Next(s, step).waiters[w])
  {
    hide Resolved, Abandoned, Preview;
  }

  lemma FinishKeepsPaired(s: State, step: Step)
    requires Paired(s) && Enabled(s, step) && step.Finish?
    ensures Paired(Next(s, step))
  {
    hide Resolved, Abandoned;
  }

  lemma StepKeepsPaired(s: State, step: Step)
    requires Rooted(s) && Paired(s) && Enabled(s, step)
    requires step.Begin? ==> forall w :: w in s.waiters ==> s.waiters[w].question != step.id
    ensures Paired(Next(s, step))
  {
    hide Preview;
    if step.Finish? {
      hide *;
      FinishKeepsPaired(s, step);
    }
  }

  lemma {:induction false} OneWaiterKeepsPaired(states: seq<State>, steps: seq<Step>, i: nat)
    requires IsRun(states, steps) && OneWaiter(steps) && i < |states|
    ensures Paired(states[i])
  {
    hide Next, Enabled;
    if i > 0 {
      var before, step := states[i - 1], steps[i - 1];
      OneWaiterKeepsPaired(states, steps, i - 1);
      RunKeepsInv(states, steps, i - 1);
      if step.Begin? {
        forall w | w in before.waiters ensures before.waiters[w].question != step.id {
          WaitersBegan(states, steps, i - 1, w);
          var j :| 0 <= j < i - 1 && Begins(states[j], steps[j], w, before.waiters[w]);
        }
      }
      StepKeepsPaired(before, step);
    } else {
      EmptyIsSound();
    }
  }

  /** With one waiter per question: published is answered, timed out, cancelled and pending together. */
  lemma ConservedWithOneWaiter(states: seq<State>, steps: seq<Step>, i: nat)
    requires IsRun(states, steps) && OneWaiter(steps) && i < |states|
    ensures var s := states[i]; s.published == s.answered + s.timedOut + s.cancelled + |s.pending|
  {
    OneWaiterKeepsPaired(states, steps, i);
    RunKeepsInv(states, steps, i);
  }
}
