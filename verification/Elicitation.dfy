/** The elicitation broker: an agent asks, somebody answers or nobody does in time. */
module Elicitation {
  import opened Wrappers

  /** `Unmade` until the first wait; `Revoked` once a wait gives up on it. */
  datatype Future = Unmade | Open | Done(value: string, at: real) | Revoked

  datatype Question = Question(session: string, text: string, defaultAnswer: string, timeoutS: real, future: Future)

  /** A wait under way: it holds on to its question and its publishing time even after the broker drops them.
      `answeredAlready` says that the answer was in before it began. */
  datatype Waiter = Waiter(question: string, publishedAt: real, deadline: real, answeredAlready: bool)

  datatype Outcome = Answered | TimedOut | Cancelled

  /** A row of the decision table; `outcome` is absent while the question is pending. */
  datatype Decision = Decision(session: string, preview: string, outcome: Option<Outcome>, answer: Option<string>,
                               source: Option<string>, latencyMs: nat)

  /** `cancelled` and `late` are not counted by the code: waits that were cancelled, and waits that ended after another
      wait had already taken their question off the list. */
  datatype State = State(
    clock: real,
    questions: map<string, Question>,
    pending: set<string>,
    publishTs: map<string, real>,
    answerSource: map<string, string>,
    waiters: map<nat, Waiter>,
    decisions: map<string, Decision>,
    published: nat, answered: nat, timedOut: nat, cancelled: nat, late: nat)

  /** `now` is the wall clock of the records, `at` the clock of the event loop, which never goes back. `recorded` says whether the decision table took the row: there may be no table, and its errors are swallowed. */
  datatype Step =
    | Publish(id: string, session: string, text: string, defaultAnswer: string, timeoutS: real, now: real, recorded: bool)
    | Begin(waiter: nat, id: string, at: real)
    | Answer(id: string, value: string, source: string, at: real)
    | Finish(waiter: nat, outcome: Outcome, now: real, at: real, recorded: bool)

  const Empty: State := State(0.0, map[], {}, map[], map[], map[], map[], 0, 0, 0, 0, 0)

  function Preview(text: string): string {
    if |text| > 120 then text[..120] else text
  }

  function LatencyMs(from: real, to: real): nat {
    var ms := (to - from) * 1000.0;
    if ms <= 0.0 then 0 else ms.Floor
  }

  /** The timer of a wait fires at its deadline or later. The event loop runs what became ready first: a waiter whose
      answer came before its timer was due has resumed by then, and one that found the answer there never waited. */
  predicate Expires(w: Waiter, q: Question, at: real) {
    w.deadline <= at && (q.future.Done? ==> !w.answeredAlready && w.deadline <= q.future.at)
  }

  /** When a step can happen: identifiers are fresh, an answered wait needs an answer, a timed-out one its timer. A wait
      may be cancelled at any moment. */
  predicate Enabled(s: State, step: Step) {
    match step
    case Publish(id, _, _, _, _, _, _) => id !in s.questions
    case Begin(w, id, at) => w !in s.waiters && s.clock <= at
    case Answer(_, _, _, at) => s.clock <= at
    case Finish(w, outcome, _, at, _) =>
      && s.clock <= at && w in s.waiters && s.waiters[w].question in s.questions
      && var q := s.questions[s.waiters[w].question];
         (outcome == Answered ==> q.future.Done?) && (outcome == TimedOut ==> Expires(s.waiters[w], q, at))
  }

  predicate CanAnswer(s: State, id: string) {
    id in s.pending && id in s.questions && s.questions[id].future == Open
  }

  /** What the caller of `wait` gets; a cancelled wait gets nothing. */
  function Reply(q: Question, outcome: Outcome): Option<string> {
    match outcome
    case Answered => if q.future.Done? then Some(q.future.value) else None
    case TimedOut => Some(q.defaultAnswer)
    case Cancelled => None
  }

  /** The row `wait` writes when it ends without being cancelled. */
  function Resolution(q: Question, outcome: Outcome, source: string, latencyMs: nat): Decision {
    if outcome == Answered && q.future.Done?
    then Decision(q.session, Preview(q.text), Some(Answered), Some(q.future.value), Some(source), latencyMs)
    else Decision(q.session, Preview(q.text), Some(TimedOut), Some(q.defaultAnswer), Some("timeout"), latencyMs)
  }

  function Resolved(s: State, w: Waiter, q: Question, outcome: Outcome, now: real, recorded: bool): map<string, Decision> {
    if outcome == Cancelled || !recorded then s.decisions
    else
      var source := if w.question in s.answerSource then s.answerSource[w.question] else "ws";
      s.decisions[w.question := Resolution(q, outcome, source, LatencyMs(w.publishedAt, now))]
  }

  function Abandoned(q: Question): Question {
    if q.future == Open then q.(future := Revoked) else q
  }

  /** What a wait does when it knows how it ends. */
  function Settled(s: State, w: nat, outcome: Outcome, now: real, at: real, recorded: bool): State
    requires Enabled(s, Finish(w, outcome, now, at, recorded))
  {
    var waiter := s.waiters[w];
    var q := s.questions[waiter.question];
    s.(clock := at,
       questions := s.questions[waiter.question := Abandoned(q)],
       decisions := Resolved(s, waiter, q, outcome, now, recorded),
       answered := s.answered + (if outcome == Answered then 1 else 0),
       timedOut := s.timedOut + (if outcome == TimedOut then 1 else 0),
       cancelled := s.cancelled + (if outcome == Cancelled then 1 else 0))
  }

  /** What it clears up on the way out. */
  function Dropped(s: State, w: nat): State
    requires w in s.waiters
  {
    var id := s.waiters[w].question;
    s.(pending := s.pending - {id},
       publishTs := s.publishTs - {id},
       answerSource := s.answerSource - {id},
       waiters := s.waiters - {w},
       late := s.late + (if id in s.pending then 0 else 1))
  }

  function Next(s: State, step: Step): State
    requires Enabled(s, step)
  {
    match step
    case Publish(id, session, text, defaultAnswer, timeoutS, now, recorded) =>
      s.(questions := s.questions[id := Question(session, text, defaultAnswer, timeoutS, Unmade)],
         pending := s.pending + {id},
         publishTs := s.publishTs[id := now],
         decisions := if recorded
                      then s.decisions[id := Decision(session, Preview(text), None, None, None, 0)]
                      else s.decisions,
         published := s.published + 1)
    case Begin(w, id, at) =>
      if id !in s.pending || id !in s.questions || id !in s.publishTs then s.(clock := at)
      else
        var q := s.questions[id];
        s.(clock := at,
           questions := s.questions[id := if q.future == Unmade then q.(future := Open) else q],
           waiters := s.waiters[w := Waiter(id, s.publishTs[id], at + q.timeoutS, q.future.Done?)])
    case Answer(id, value, source, at) =>
      if !CanAnswer(s, id) then s.(clock := at)
      else
        s.(clock := at,
           questions := s.questions[id := s.questions[id].(future := Done(value, at))],
           answerSource := s.answerSource[id := source])
    case Finish(w, outcome, now, at, recorded) =>
      Dropped(Settled(s, w, outcome, now, at, recorded), w)
  }

  // ---- The code ----

  class ElicitationBroker {
    ghost var clock: real
    var questions: map<string, Question>
    var pending: set<string>
    var publishTs: map<string, real>
    var answerSource: map<string, string>
    var waiters: map<nat, Waiter>
    var decisions: map<string, Decision>
    var publishedTotal: nat
    var answeredTotal: nat
    var timedOutTotal: nat
    ghost var cancelled: nat
    ghost var late: nat

    ghost function Contents(): State
      reads this
    {
      State(clock, questions, pending, publishTs, answerSource, waiters, decisions,
            publishedTotal, answeredTotal, timedOutTotal, cancelled, late)
    }

    /** Holds between calls: what is pending has a question and a publishing time. */
    predicate Valid()
      reads this
    {
      pending == publishTs.Keys && pending <= questions.Keys
    }

    constructor ()
      ensures Contents() == Empty && Valid()
    {
      clock := 0.0;
      questions, pending, publishTs, answerSource := map[], {}, map[], map[];
      waiters, decisions := map[], map[];
      publishedTotal, answeredTotal, timedOutTotal, cancelled, late := 0, 0, 0, 0, 0;
    }

    method Ask(id: string, session: string, text: string, defaultAnswer: string, timeoutS: real, now: real, recorded: bool)
      requires Valid() && id !in questions
      modifies this
      ensures Contents() == Next(old(Contents()), Publish(id, session, text, defaultAnswer, timeoutS, now, recorded)) && Valid()
    {
      questions := questions[id := Question(session, text, defaultAnswer, timeoutS, Unmade)];
      pending := pending + {id};
      publishTs := publishTs[id := now];
      publishedTotal := publishedTotal + 1;
      if recorded {
        decisions := decisions[id := Decision(session, Preview(text), None, None, None, 0)];
      }
    }

    /** The first half of `wait`: an unknown question is refused, the future is made on the first wait. */
    method BeginWait(w: nat, id: string, at: real) returns (known: bool)
      requires Valid() && w !in waiters && clock <= at
      modifies this
      ensures Contents() == Next(old(Contents()), Begin(w, id, at)) && Valid()
      ensures known <==> id in old(pending)
    {
      clock := at;
      if id !in pending { return false; }
      var q := questions[id];
      var answered := q.future.Done?;
      if q.future == Unmade { q := q.(future := Open); }
      questions := questions[id := q];
      waiters := waiters[w := Waiter(id, publishTs[id], at + q.timeoutS, answered)];
      return true;
    }

    /** True exactly when the question is pending, someone waits for it and nobody has answered yet. */
    method TakeAnswer(id: string, value: string, source: string, at: real) returns (taken: bool)
      requires Valid() && clock <= at
      modifies this
      ensures Contents() == Next(old(Contents()), Answer(id, value, source, at)) && Valid()
      ensures taken <==> CanAnswer(old(Contents()), id)
    {
      clock := at;
      if id !in pending { return false; }
      if questions[id].future != Open { return false; }
      questions := questions[id := questions[id].(future := Done(value, at))];
      answerSource := answerSource[id := source];
      return true;
    }

    method RecordResolve(id: string, d: Decision, recorded: bool)
      modifies this`decisions
      ensures decisions == if recorded then old(decisions)[id := d] else old(decisions)
    {
      if recorded { decisions := decisions[id := d]; }
    }

    /** The second half of `wait`. Returns what the caller gets; a cancelled wait gets nothing. */
    method FinishWait(w: nat, outcome: Outcome, now: real, at: real, recorded: bool) returns (result: Option<string>)
      requires Valid() && Enabled(Contents(), Finish(w, outcome, now, at, recorded))
      modifies this
      ensures Contents() == Next(old(Contents()), Finish(w, outcome, now, at, recorded)) && Valid()
      ensures var q := old(questions[waiters[w].question]);
              result == Reply(q, outcome)
    {
      hide LatencyMs, Preview;
      result := Settle(w, outcome, now, at, recorded);
      hide Resolved;
      ClearUp(w);
      assert Valid();
    }

    method ClearUp(w: nat)
      requires w in waiters
      modifies this
      ensures Contents() == Dropped(old(Contents()), w)
    {
      var id := waiters[w].question;
      if id !in pending { late := late + 1; }
      pending, publishTs, answerSource := pending - {id}, publishTs - {id}, answerSource - {id};
      waiters := waiters - {w};
    }

    method Settle(w: nat, outcome: Outcome, now: real, at: real, recorded: bool) returns (result: Option<string>)
      requires Enabled(Contents(), Finish(w, outcome, now, at, recorded))
      modifies this
      ensures Contents() == Settled(old(Contents()), w, outcome, now, at, recorded)
      ensures var q := old(questions[waiters[w].question]);
              result == Reply(q, outcome)
    {
      hide LatencyMs, Preview, Resolution;
      clock := at;
      var waiter := waiters[w];
      var id := waiter.question;
      var q := questions[id];
      result := Record(waiter, q, outcome, LatencyMs(waiter.publishedAt, now), recorded);
      questions := questions[id := Abandoned(q)];
    }

    /** Counts the outcome and writes its row. */
    method Record(waiter: Waiter, q: Question, outcome: Outcome, latency: nat, recorded: bool) returns (result: Option<string>)
      requires outcome == Answered ==> q.future.Done?
      modifies this`decisions, this`answeredTotal, this`timedOutTotal, this`cancelled
      ensures result == Reply(q, outcome)
      ensures answeredTotal == old(answeredTotal) + (if outcome == Answered then 1 else 0)
      ensures timedOutTotal == old(timedOutTotal) + (if outcome == TimedOut then 1 else 0)
      ensures cancelled == old(cancelled) + (if outcome == Cancelled then 1 else 0)
      ensures var source := if waiter.question in answerSource then answerSource[waiter.question] else "ws";
              decisions == if outcome == Cancelled || !recorded then old(decisions)
                           else old(decisions)[waiter.question := Resolution(q, outcome, source, latency)]
    {
      hide Preview;
      var id := waiter.question;
      match outcome {
        case Answered =>
          answeredTotal := answeredTotal + 1;
          var source := if id in answerSource then answerSource[id] else "ws";
          RecordResolve(id, Resolution(q, Answered, source, latency), recorded);
          result := Some(q.future.value);
        case TimedOut =>
          timedOutTotal := timedOutTotal + 1;
          RecordResolve(id, Resolution(q, TimedOut, "timeout", latency), recorded);
          result := Some(q.defaultAnswer);
        case Cancelled =>
          cancelled := cancelled + 1;
          result := None;
      }
    }
  }
}
