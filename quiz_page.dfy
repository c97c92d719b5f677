/**
 * The quiz page: when it loads questions and what it makes of the trivia service's reply,
 * the countdown and the one-shot submission, navigation between questions and the progress shown.
 */
module QuizPage {
  import opened Optional
  import Decimal
  import opened QuizContext

  // ---------------------------------------------------------------------------------------------
  // Loading questions

  /** A load starts only with no questions, no load under way and an email to take the quiz under. */
  predicate ShouldFetch(s: Session)
  {
    |s.questions| == 0 && s.status != Loading && s.email != ""
  }

  /** One entry of the service's `results`. */
  datatype ApiItem = ApiItem(question: string, correctAnswer: string, incorrectAnswers: seq<string>)

  /** What the request came back with. */
  datatype Reply =
    | Rejected(message: string)            // `fetch` or `response.json()` failed with this message
    | Received(ok: bool, httpStatus: int, responseCode: int, results: seq<ApiItem>)

  /** The message for a non-zero `response_code`. */
  function ResponseCodeMessage(code: int): string
  {
    if code == 1 then "No results found for the quiz request."
    else if code == 2 then "Invalid parameters sent to the quiz API."
    else if code == 3 then "Session token not found by the quiz API."
    else if code == 4 then "Session token has no remaining questions."
    else "Unable to load quiz questions."
  }

  /** `error.message || 'Failed to load quiz.'` */
  function ErrorMessage(message: string): string
  {
    if message == "" then "Failed to load quiz." else message
  }

  /** `decodeHtmlEntities`: an empty value stays empty; any other goes through the browser's decoder `dom`. */
  function DecodeEntities(dom: string -> string, value: string): string
  {
    if value == "" then "" else dom(value)
  }

  function DecodeAll(dom: string -> string, values: seq<string>): (r: seq<string>)
    ensures |r| == |values|
    ensures forall i :: 0 <= i < |values| ==> r[i] == DecodeEntities(dom, values[i])
  {
    if values == [] then [] else [DecodeEntities(dom, values[0])] + DecodeAll(dom, values[1..])
  }

  /** `[0, 1, ..., n - 1]`. */
  function Indices(n: nat): (r: seq<nat>)
    ensures |r| == n && forall i :: 0 <= i < n ==> r[i] == i
  {
    if n == 0 then [] else Indices(n - 1) + [n - 1]
  }

  /** `order` is one of the orders `shuffleArray` may put `n` elements in: each position exactly once. */
  predicate IsShuffle(order: seq<nat>, n: nat)
  {
    multiset(order) == multiset(Indices(n))
  }

  /** One shuffle order per result, each of its options. */
  predicate ShufflesFit(items: seq<ApiItem>, orders: seq<seq<nat>>)
  {
    |orders| == |items| &&
    forall i :: 0 <= i < |items| ==> IsShuffle(orders[i], 1 + |items[i].incorrectAnswers|)
  }

  predicate InBounds(order: seq<nat>, n: nat)
  {
    forall k :: 0 <= k < |order| ==> order[k] < n
  }

  lemma ShuffleInBounds(order: seq<nat>, n: nat)
    requires IsShuffle(order, n)
    ensures InBounds(order, n)
  {
    forall k | 0 <= k < |order|
      ensures order[k] < n
    {
      assert order[k] in multiset(Indices(n));
    }
  }

  /** The elements of `xs` in the order `order` picks them. */
  function Arrange<T>(xs: seq<T>, order: seq<nat>): (r: seq<T>)
    requires InBounds(order, |xs|)
    ensures |r| == |order|
  {
    if order == [] then [] else [xs[order[0]]] + Arrange(xs, order[1..])
  }

  /** The element at each position is the one the order names there. */
  lemma {:induction false} ArrangePicks<T>(xs: seq<T>, order: seq<nat>)
    requires InBounds(order, |xs|)
    ensures forall k :: 0 <= k < |order| ==> Arrange(xs, order)[k] == xs[order[k]]
  {
    if order != [] {
      ArrangePicks(xs, order[1..]);
    }
  }

  /** One question record built from one result: its id, decoded text and shuffled options. */
  function BuildQuestion(dom: string -> string, item: ApiItem, index: nat, order: seq<nat>): Question
    requires IsShuffle(order, 1 + |item.incorrectAnswers|)
  {
    var text := DecodeEntities(dom, item.question);
    var correct := DecodeEntities(dom, item.correctAnswer);
    var choices := [correct] + DecodeAll(dom, item.incorrectAnswers);
    ShuffleInBounds(order, |choices|);
    Question(Decimal.NatToString(index) + "-" + text, text, correct, Arrange(choices, order))
  }

  /** `data.results.map(...)`: one question per result, in the same order. */
  function BuildQuestions(dom: string -> string, items: seq<ApiItem>, orders: seq<seq<nat>>): (r: seq<Question>)
    requires ShufflesFit(items, orders)
    ensures |r| == |items|
    ensures forall i :: 0 <= i < |items| ==> r[i] == BuildQuestion(dom, items[i], i, orders[i])
  {
    seq(|items|, i requires 0 <= i < |items| => BuildQuestion(dom, items[i], i, orders[i]))
  }

  /** What a load ends in: the questions, or the message shown on the error card. */
  datatype Fetched = Loaded(questions: seq<Question>) | Failed(message: string)

  predicate ReplyFits(reply: Reply, orders: seq<seq<nat>>)
  {
    reply.Received? ==> ShufflesFit(reply.results, orders)
  }

  /** The body of `fetchQuestions` after the request: each way it can fail, or the built questions. */
  function Outcome(reply: Reply, dom: string -> string, orders: seq<seq<nat>>): Fetched
    requires ReplyFits(reply, orders)
  {
    match reply
    case Rejected(m) => Failed(ErrorMessage(m))
    case Received(ok, httpStatus, code, results) =>
      if !ok then Failed(ErrorMessage("Network error: " + Decimal.IntToString(httpStatus)))
      else if code != 0 then Failed(ErrorMessage(ResponseCodeMessage(code)))
      else Loaded(BuildQuestions(dom, results, orders))
  }

  /** The current question is on screen; the visited effect needs its slot. */
  predicate CursorInRange(s: Session)
  {
    Aligned(s) && (|s.questions| > 0 ==> 0 <= s.currentIndex < |s.questions|)
  }

  /** The effect that marks the current question visited whenever there are questions. */
  function MarkCurrentVisited(s: Session): Session
    requires CursorInRange(s)
  {
    if |s.questions| > 0 then Reducer(s, SetVisited(s.currentIndex)) else s
  }

  /** The dispatches of one load: `loading`, then the questions (and the visited effect) or the error and `error`. */
  function LoadSession(s: Session, fetched: Fetched): Session
  {
    var loading := Reducer(s, SetStatus(Loading));
    match fetched
    case Loaded(qs) =>
      var ready := Reducer(loading, SetQuestions(qs));
      ReducerKeepsAligned(loading, SetQuestions(qs));
      MarkCurrentVisited(ready)
    case Failed(m) => Reducer(Reducer(loading, SetError(Some(m))), SetStatus(Error))
  }

  /** The Retry button: clear the error, go back to `idle`. */
  function RetrySession(s: Session): Session
  {
    Reducer(Reducer(s, SetError(None)), SetStatus(Idle))
  }

  // ---------------------------------------------------------------------------------------------
  // Countdown and submission

  /** The page's session with its one-shot `hasSubmittedRef` flag. */
  datatype Page = Page(session: Session, hasSubmitted: bool)

  /** `Math.max(0, t - 1)`. */
  function TickTime(t: int): int
  {
    if t - 1 > 0 then t - 1 else 0
  }

  /** `handleSubmit`, and the timer's expiry branch: mark submitted unless this page already did. */
  function SubmitStep(p: Page, now: int): Page
  {
    if p.hasSubmitted then p else Page(Reducer(p.session, MarkSubmitted(now)), true)
  }

  /** One run of the timer effect together with the timeout it schedules. */
  function TimerStep(p: Page, now: int): Page
  {
    var s := p.session;
    if s.status != Ready then p
    else if s.remainingTime <= 0 then SubmitStep(p, now)
    else Page(Reducer(s, SetRemainingTime(TickTime(s.remainingTime))), p.hasSubmitted)
  }

  /**
   * What can reach the submission logic, each at some time: one run of the timer effect (an expiry
   * check, or a tick once its one-second timeout fires), or the confirm button.
   */
  datatype Trigger = TimerFired(now: int) | SubmitClicked(now: int)

  function Step(p: Page, t: Trigger): Page
  {
    match t
    case TimerFired(now) => TimerStep(p, now)
    case SubmitClicked(now) => SubmitStep(p, now)
  }

  /** Whether the step dispatches `MARK_SUBMITTED`. */
  predicate Marks(p: Page, t: Trigger)
  {
    !p.hasSubmitted && (t.SubmitClicked? || (p.session.status == Ready && p.session.remainingTime <= 0))
  }

  function Run(p: Page, ts: seq<Trigger>): Page
    decreases |ts|
  {
    if ts == [] then p else Run(Step(p, ts[0]), ts[1..])
  }

  /** The number of `MARK_SUBMITTED` dispatches along a run. */
  function MarkCount(p: Page, ts: seq<Trigger>): nat
    decreases |ts|
  {
    if ts == [] then 0 else (if Marks(p, ts[0]) then 1 else 0) + MarkCount(Step(p, ts[0]), ts[1..])
  }

  // ---------------------------------------------------------------------------------------------
  // Navigation

  /**
   * Landing on a question: set it current; the visited effect runs again only when the index
   * actually changed, since it depends on the index and the number of questions.
   */
  function Navigate(s: Session, i: int): Session
    requires Aligned(s) && 0 <= i < |s.questions|
  {
    var moved := Reducer(s, SetCurrentIndex(i));
    if i == s.currentIndex then moved else MarkCurrentVisited(moved)
  }

  /** What the visited effect keeps true once questions are on screen: the current one is marked. */
  predicate OnVisited(s: Session)
  {
    CursorInRange(s) && (|s.questions| > 0 ==> s.visited[s.currentIndex])
  }

  function NextSession(s: Session): Session
    requires Aligned(s) && 0 <= s.currentIndex < |s.questions|
  {
    if s.currentIndex < |s.questions| - 1 then Navigate(s, s.currentIndex + 1) else s
  }

  function PreviousSession(s: Session): Session
    requires Aligned(s) && 0 <= s.currentIndex < |s.questions|
  {
    if s.currentIndex > 0 then Navigate(s, s.currentIndex - 1) else s
  }

  // ---------------------------------------------------------------------------------------------
  // Derived views

  /** `attempted`: one flag per answer slot, set when the slot is not null. */
  function Attempted(answers: seq<Option<string>>): (r: seq<bool>)
    ensures |r| == |answers|
    ensures forall i :: 0 <= i < |answers| ==> (r[i] <==> answers[i].Some?)
  {
    seq(|answers|, i requires 0 <= i < |answers| => answers[i].Some?)
  }

  /** `attemptedCount`: how many answer slots are not null. */
  function AttemptedCount(answers: seq<Option<string>>): (n: nat)
    ensures n <= |answers|
    ensures n == 0 <==> forall i :: 0 <= i < |answers| ==> answers[i] == None
  {
    if answers == [] then 0
    else AttemptedCount(answers[..|answers| - 1]) + (if answers[|answers| - 1].Some? then 1 else 0)
  }

  /** `Math.round(attemptedCount / total * 100)`, or 0 with no questions, in exact integer arithmetic. */
  function ProgressPercent(count: nat, total: nat): (p: nat)
    requires count <= total
    ensures p <= 100
    ensures total == 0 ==> p == 0
    ensures total > 0 ==> 2 * total * p <= 200 * count + total < 2 * total * (p + 1)
  {
    if total == 0 then 0
    else
      PercentBounds(count, total);
      (200 * count + total) / (2 * total)
  }

  /** The rounded percentage lies between 0 and 100 and is the nearest whole percent, halves rounding up. */
  lemma PercentBounds(count: nat, total: nat)
    requires count <= total && total > 0
    ensures var p := (200 * count + total) / (2 * total);
      0 <= p <= 100 && 2 * total * p <= 200 * count + total < 2 * total * (p + 1)
  {
    var a, d := 200 * count + total, 2 * total;
    var p, m := a / d, a % d;
    assert a == d * p + m && 0 <= m < d;
    if p > 100 {
      MulNonNegative(d, p - 101);
      assert false;
    }
    assert d * (p + 1) == d * p + d;
  }

  // ---------------------------------------------------------------------------------------------
  // Properties of loading

  /** A restored `loading` snapshot, an empty email or questions already there each keep the load from starting. */
  lemma FetchGuard(s: Session)
    ensures s.status == Loading ==> !ShouldFetch(s)
    ensures s.email == "" ==> !ShouldFetch(s)
    ensures |s.questions| > 0 ==> !ShouldFetch(s)
    ensures s.status != Loading && s.email != "" && |s.questions| == 0 ==> ShouldFetch(s)
  {
  }

  /** Every failure has its fixed message; a reply with code 0 gives the built questions. */
  lemma OutcomeMessages(reply: Reply, dom: string -> string, orders: seq<seq<nat>>)
    requires ReplyFits(reply, orders)
    ensures reply.Rejected? ==> (Outcome(reply, dom, orders) ==
      Failed(if reply.message == "" then "Failed to load quiz." else reply.message))
    ensures reply.Received? && !reply.ok ==> (Outcome(reply, dom, orders) ==
      Failed("Network error: " + Decimal.IntToString(reply.httpStatus)))
    ensures reply.Received? && reply.ok && reply.responseCode == 1 ==> (Outcome(reply, dom, orders) ==
      Failed("No results found for the quiz request."))
    ensures reply.Received? && reply.ok && reply.responseCode == 2 ==> (Outcome(reply, dom, orders) ==
      Failed("Invalid parameters sent to the quiz API."))
    ensures reply.Received? && reply.ok && reply.responseCode == 3 ==> (Outcome(reply, dom, orders) ==
      Failed("Session token not found by the quiz API."))
    ensures reply.Received? && reply.ok && reply.responseCode == 4 ==> (Outcome(reply, dom, orders) ==
      Failed("Session token has no remaining questions."))
    ensures reply.Received? && reply.ok && !(0 <= reply.responseCode <= 4) ==> (Outcome(reply, dom, orders) ==
      Failed("Unable to load quiz questions."))
    ensures reply.Received? && reply.ok && reply.responseCode == 0 ==> (Outcome(reply, dom, orders) ==
      Loaded(BuildQuestions(dom, reply.results, orders)))
  {
  }

  /** A failed load leaves the session in `error` with the message, and changes nothing else. */
  lemma LoadFailureShowsError(s: Session, m: string)
    ensures LoadSession(s, Failed(m)) == s.(status := Error, error := Some(m))
  {
  }

  /**
   * The fetch effect depends on the status, so it runs again after every load. A load that fails,
   * or that brings back no questions, leaves the guard true: the page requests again without
   * waiting for Retry. Only a load with questions stops it.
   */
  lemma LoadRefetchesUnlessQuestions(s: Session, fetched: Fetched)
    requires ShouldFetch(s)
    ensures ShouldFetch(LoadSession(s, fetched)) <==> fetched.Failed? || fetched.questions == []
  {
  }

  /** A successful load starts a fresh attempt on the new questions with the first one visited. */
  lemma LoadSuccessStartsAttempt(s: Session, qs: seq<Question>)
    ensures var r := LoadSession(s, Loaded(qs));
      r.questions == qs && Aligned(r) && r.email == s.email &&
      r.currentIndex == 0 && r.remainingTime == DefaultTime && r.status == Ready &&
      r.error == None && r.submittedAt == None &&
      (forall j :: 0 <= j < |qs| ==> r.selectedAnswers[j] == None && (r.visited[j] <==> j == 0))
  {
  }

  /** Response code 4 ends the load in `error` with the exhausted-token message. */
  lemma TokenExhaustedScenario(s: Session, results: seq<ApiItem>, dom: string -> string, orders: seq<seq<nat>>)
    requires ShufflesFit(results, orders)
    ensures var r := LoadSession(s, Outcome(Received(true, 200, 4, results), dom, orders));
      r.status == Error && r.error == Some("Session token has no remaining questions.")
  {
  }

  /**
   * A reload while a load is under way restores the `loading` status with no questions, and from
   * there no load starts and the countdown does not run.
   */
  lemma ReloadMidLoadNeverFetches(storage: map<string, string>, s: Session, now: int)
    requires s.email != "" && s.status == Loading && |s.questions| == 0
    ensures var restored := LoadState(PersistState(storage, s));
      restored == s && !ShouldFetch(restored) && TimerStep(Page(restored, false), now) == Page(restored, false)
  {
    LoadAfterPersist(storage, s);
  }

  /** Retry returns to `idle` with no error, which starts a new load when there are still no questions. */
  lemma RetryReturnsToIdle(s: Session)
    ensures RetrySession(s) == s.(status := Idle, error := None)
    ensures ShouldFetch(RetrySession(s)) <==> |s.questions| == 0 && s.email != ""
  {
  }

  lemma RemoveAt(q: seq<nat>, k: nat)
    requires k < |q|
    ensures multiset(q) == multiset(q[..k] + q[k + 1..]) + multiset{q[k]}
  {
    assert q == q[..k] + [q[k]] + q[k + 1..];
  }

  /** Dropping a later position commutes with taking the first one off. */
  lemma DropAfterHead(q: seq<nat>, k: nat)
    requires 0 < k < |q|
    ensures q[..k] + q[k + 1..] == [q[0]] + (q[1..][..k - 1] + q[1..][k..])
    ensures q[1..][k - 1] == q[k]
  {
    assert q[..k] == [q[0]] + q[1..][..k - 1];
    assert q[k + 1..] == q[1..][k..];
  }

  /** Dropping one position from an order drops its element from the picked ones. */
  lemma {:induction false} ArrangeRemoveAt<T>(xs: seq<T>, q: seq<nat>, k: nat)
    requires InBounds(q, |xs|) && k < |q|
    ensures InBounds(q[..k] + q[k + 1..], |xs|)
    ensures multiset(Arrange(xs, q)) == multiset(Arrange(xs, q[..k] + q[k + 1..])) + multiset{xs[q[k]]}
    decreases k
  {
    var rest := q[..k] + q[k + 1..];
    assert InBounds(rest, |xs|) by {
      forall i | 0 <= i < |rest|
        ensures rest[i] < |xs|
      {
        assert rest[i] == if i < k then q[i] else q[i + 1];
      }
    }
    if k == 0 {
      assert rest == q[1..];
    } else {
      var tail := q[1..];
      var restTail := tail[..k - 1] + tail[k..];
      DropAfterHead(q, k);
      ArrangeRemoveAt(xs, tail, k - 1);
      var head := xs[q[0]];
      assert multiset(Arrange(xs, q)) == multiset{head} + multiset(Arrange(xs, tail)) by {
        assert Arrange(xs, q) == [head] + Arrange(xs, tail);
      }
      assert multiset(Arrange(xs, rest)) == multiset{head} + multiset(Arrange(xs, restTail)) by {
        assert rest[0] == q[0] && rest[1..] == restTail;
        assert Arrange(xs, rest) == [head] + Arrange(xs, restTail);
      }
      RegroupOne(multiset(Arrange(xs, q)), multiset(Arrange(xs, tail)), multiset(Arrange(xs, rest)),
        multiset(Arrange(xs, restTail)), head, xs[q[k]]);
    }
  }

  lemma RegroupOne<T>(whole: multiset<T>, tail: multiset<T>, rest: multiset<T>, restTail: multiset<T>, head: T, x: T)
    requires whole == multiset{head} + tail && tail == restTail + multiset{x}
    requires rest == multiset{head} + restTail
    ensures whole == rest + multiset{x}
  {
  }

  lemma CancelOne(a: multiset<nat>, b: multiset<nat>, x: nat)
    requires a + multiset{x} == b + multiset{x}
    ensures a == b
  {
    forall y
      ensures a[y] == b[y]
    {
      assert (a + multiset{x})[y] == (b + multiset{x})[y];
    }
  }

  /** Taking the first position off one order and the same position off the other keeps them alike. */
  lemma RemoveMatching(p: seq<nat>, q: seq<nat>, k: nat)
    requires multiset(p) == multiset(q) && p != [] && k < |q| && q[k] == p[0]
    ensures multiset(p[1..]) == multiset(q[..k] + q[k + 1..])
  {
    RemoveAt(q, k);
    RemoveAt(p, 0);
    assert p[..0] + p[1..] == p[1..];
    CancelOne(multiset(p[1..]), multiset(q[..k] + q[k + 1..]), p[0]);
  }

  /** Picking by two orders that hold the same positions picks the same elements. */
  lemma {:induction false} ArrangeSameMultiset<T>(xs: seq<T>, p: seq<nat>, q: seq<nat>)
    requires InBounds(p, |xs|) && InBounds(q, |xs|)
    requires multiset(p) == multiset(q)
    ensures multiset(Arrange(xs, p)) == multiset(Arrange(xs, q))
    decreases |p|
  {
    if p == [] {
      assert |q| == |multiset(q)| == 0;
    } else {
      assert p[0] in multiset(q);
      var k :| 0 <= k < |q| && q[k] == p[0];
      RemoveMatching(p, q, k);
      ArrangeRemoveAt(xs, q, k);
      ArrangeRemoveAt(xs, p, 0);
      assert p[..0] + p[1..] == p[1..];
      ArrangeSameMultiset(xs, p[1..], q[..k] + q[k + 1..]);
    }
  }

  /** Shuffling options keeps exactly the options. */
  lemma ArrangePermutes<T>(xs: seq<T>, order: seq<nat>)
    requires IsShuffle(order, |xs|)
    ensures InBounds(order, |xs|) && multiset(Arrange(xs, order)) == multiset(xs)
  {
    ShuffleInBounds(order, |xs|);
    ArrangeSameMultiset(xs, order, Indices(|xs|));
    ArrangePicks(xs, Indices(|xs|));
    assert Arrange(xs, Indices(|xs|)) == xs;
  }

  /** One built question against its result: id, text, correct answer and a shuffle of the decoded answers. */
  lemma BuiltQuestionMatches(dom: string -> string, item: ApiItem, index: nat, order: seq<nat>)
    requires IsShuffle(order, 1 + |item.incorrectAnswers|)
    ensures var q := BuildQuestion(dom, item, index, order);
      var text := DecodeEntities(dom, item.question);
      var correct := DecodeEntities(dom, item.correctAnswer);
      q.id == Decimal.NatToString(index) + "-" + text &&
      q.text == text &&
      q.correctAnswer == correct &&
      multiset(q.options) == multiset([correct] + DecodeAll(dom, item.incorrectAnswers)) &&
      correct in q.options &&
      |q.options| == 1 + |item.incorrectAnswers|
  {
    var correct := DecodeEntities(dom, item.correctAnswer);
    var choices := [correct] + DecodeAll(dom, item.incorrectAnswers);
    ArrangePermutes(choices, order);
    assert correct in multiset(choices);
  }

  /**
   * The built questions follow the results one for one: the id is the position and the decoded text,
   * the correct answer is the decoded one, and the options are a shuffle of the correct and incorrect ones.
   */
  lemma BuiltQuestionsMatchResults(dom: string -> string, items: seq<ApiItem>, orders: seq<seq<nat>>)
    requires ShufflesFit(items, orders)
    ensures var qs := BuildQuestions(dom, items, orders);
      |qs| == |items| &&
      forall i :: 0 <= i < |items| ==>
        var text := DecodeEntities(dom, items[i].question);
        var correct := DecodeEntities(dom, items[i].correctAnswer);
        qs[i].id == Decimal.NatToString(i) + "-" + text &&
        qs[i].text == text &&
        qs[i].correctAnswer == correct &&
        multiset(qs[i].options) == multiset([correct] + DecodeAll(dom, items[i].incorrectAnswers)) &&
        correct in qs[i].options &&
        |qs[i].options| == 1 + |items[i].incorrectAnswers|
  {
    var qs := BuildQuestions(dom, items, orders);
    forall i | 0 <= i < |items|
      ensures var text := DecodeEntities(dom, items[i].question);
        var correct := DecodeEntities(dom, items[i].correctAnswer);
        qs[i].id == Decimal.NatToString(i) + "-" + text &&
        qs[i].text == text &&
        qs[i].correctAnswer == correct &&
        multiset(qs[i].options) == multiset([correct] + DecodeAll(dom, items[i].incorrectAnswers)) &&
        correct in qs[i].options &&
        |qs[i].options| == 1 + |items[i].incorrectAnswers|
    {
      BuiltQuestionMatches(dom, items[i], i, orders[i]);
    }
  }

  /** A run of digits followed by a dash is told apart from another such run by the dash. */
  lemma DigitsBeforeDash(a: string, u: string, b: string, v: string)
    requires Decimal.AllDigits(a) && Decimal.AllDigits(b)
    requires a + "-" + u == b + "-" + v
    ensures a == b
  {
    var w := a + "-" + u;
    assert w[|a|] == '-';
    assert (b + "-" + v)[|b|] == '-';
    if |a| < |b| {
      assert false;
    } else if |b| < |a| {
      assert false;
    } else {
      assert a == w[..|a|];
      assert b == (b + "-" + v)[..|b|];
    }
  }

  /** No two built questions share an id. */
  lemma BuiltQuestionIdsUnique(dom: string -> string, items: seq<ApiItem>, orders: seq<seq<nat>>, i: nat, j: nat)
    requires ShufflesFit(items, orders)
    requires i < |items| && j < |items| && i != j
    ensures BuildQuestions(dom, items, orders)[i].id != BuildQuestions(dom, items, orders)[j].id
  {
    var qs := BuildQuestions(dom, items, orders);
    var a := Decimal.NatToString(i);
    var b := Decimal.NatToString(j);
    assert qs[i].id == a + "-" + DecodeEntities(dom, items[i].question);
    assert qs[j].id == b + "-" + DecodeEntities(dom, items[j].question);
    if qs[i].id == qs[j].id {
      DigitsBeforeDash(a, DecodeEntities(dom, items[i].question), b, DecodeEntities(dom, items[j].question));
      Decimal.NatToStringInjective(i, j);
    }
  }

  // ---------------------------------------------------------------------------------------------
  // Properties of the countdown and submission

  /** While ready with time left, a tick takes one second off and changes nothing else. */
  lemma TickCountsDown(p: Page, now: int)
    requires p.session.status == Ready && p.session.remainingTime > 0
    ensures var r := TimerStep(p, now);
      r == Page(p.session.(remainingTime := p.session.remainingTime - 1), p.hasSubmitted) &&
      0 <= r.session.remainingTime < p.session.remainingTime
  {
  }

  /** Along any run of ticks and clicks the remaining time never goes below zero nor up. */
  lemma {:induction false} TimeNeverNegative(p: Page, ts: seq<Trigger>)
    requires p.session.remainingTime >= 0
    ensures 0 <= Run(p, ts).session.remainingTime <= p.session.remainingTime
    decreases |ts|
  {
    if ts != [] {
      TimeNeverNegative(Step(p, ts[0]), ts[1..]);
    }
  }

  /**
   * Whatever mix of timer firings and Submit clicks reaches the page, it dispatches `MARK_SUBMITTED`
   * at most once, and after the flag is up the submission time stamp no longer changes.
   */
  lemma {:induction false} AtMostOneSubmission(p: Page, ts: seq<Trigger>)
    ensures MarkCount(p, ts) <= (if p.hasSubmitted then 0 else 1)
    ensures p.hasSubmitted ==> Run(p, ts).hasSubmitted && Run(p, ts).session.submittedAt == p.session.submittedAt
    ensures !p.hasSubmitted ==> (MarkCount(p, ts) == 1 <==> Run(p, ts).hasSubmitted)
    decreases |ts|
  {
    if ts != [] {
      var q := Step(p, ts[0]);
      AtMostOneSubmission(q, ts[1..]);
      assert Marks(p, ts[0]) <==> !p.hasSubmitted && q.hasSubmitted;
      assert p.hasSubmitted ==> q.hasSubmitted && q.session.submittedAt == p.session.submittedAt;
    }
  }

  /** Submitting twice is submitting once: the first time stamp stays. */
  lemma SubmitIsOneShot(p: Page, t1: int, t2: int)
    ensures SubmitStep(SubmitStep(p, t1), t2) == SubmitStep(p, t1)
    ensures !p.hasSubmitted ==> SubmitStep(p, t1).session.status == Submitted &&
                                SubmitStep(p, t1).session.submittedAt == Some(t1)
  {
  }

  /**
   * With one second left, the tick reaches zero; the render it causes runs the timer effect again,
   * and that run submits without waiting.
   */
  lemma ExpiryScenario(s: Session, t1: int, t2: int)
    requires s.status == Ready && s.remainingTime == 1
    ensures Run(Page(s, false), [TimerFired(t1), TimerFired(t2)]) ==
      Page(s.(remainingTime := 0, status := Submitted, submittedAt := Some(t2)), true)
  {
    var p1 := TimerStep(Page(s, false), t1);
    assert p1 == Page(s.(remainingTime := 0), false);
    var p2 := TimerStep(p1, t2);
    assert p2 == Page(s.(remainingTime := 0, status := Submitted, submittedAt := Some(t2)), true);
    assert [TimerFired(t1), TimerFired(t2)][1..] == [TimerFired(t2)];
    assert [TimerFired(t2)][1..] == [];
    assert Run(p1, [TimerFired(t2)]) == Run(p2, []);
  }

  // ---------------------------------------------------------------------------------------------
  // Properties of navigation

  /**
   * Landing on a question makes it current, unmarks nothing and touches no other field; it is
   * visited afterwards when it is a different question or was visited already.
   */
  lemma NavigateLands(s: Session, i: int)
    requires Aligned(s) && 0 <= i < |s.questions|
    ensures var r := Navigate(s, i);
      Aligned(r) && r.currentIndex == i &&
      (i != s.currentIndex || s.visited[i] ==> r.visited[i]) &&
      (forall j :: 0 <= j < |s.visited| && j != i ==> r.visited[j] == s.visited[j]) &&
      r == s.(currentIndex := i, visited := r.visited)
    ensures OnVisited(s) ==> OnVisited(Navigate(s, i))
  {
  }

  /** A successful load puts the cursor on the first question and marks it visited. */
  lemma LoadedSessionOnVisited(s: Session, qs: seq<Question>)
    ensures OnVisited(LoadSession(s, Loaded(qs)))
  {
  }

  /** Next and Previous move one step while there is a question that way, and the cursor stays on a question. */
  lemma NextPreviousStayInRange(s: Session)
    requires Aligned(s) && 0 <= s.currentIndex < |s.questions|
    ensures var r := NextSession(s);
      0 <= r.currentIndex < |s.questions| &&
      (if s.currentIndex < |s.questions| - 1
       then r == Navigate(s, s.currentIndex + 1) && r.currentIndex == s.currentIndex + 1 &&
            r.visited[r.currentIndex]
       else r == s)
    ensures var r := PreviousSession(s);
      0 <= r.currentIndex < |s.questions| &&
      (if s.currentIndex > 0
       then r == Navigate(s, s.currentIndex - 1) && r.currentIndex == s.currentIndex - 1 &&
            r.visited[r.currentIndex]
       else r == s)
  {
  }

  // ---------------------------------------------------------------------------------------------
  // Properties of the derived views

  /** The answered positions. */
  function AnsweredIndices(answers: seq<Option<string>>): set<nat>
  {
    set i: nat | i < |answers| && answers[i].Some?
  }

  /** `attemptedCount` is the number of answered positions. */
  lemma {:induction false} AttemptedCountIsCardinality(answers: seq<Option<string>>)
    ensures AttemptedCount(answers) == |AnsweredIndices(answers)|
    decreases |answers|
  {
    if answers != [] {
      var n := |answers| - 1;
      var front := answers[..n];
      AttemptedCountIsCardinality(front);
      if answers[n].Some? {
        assert AnsweredIndices(answers) == AnsweredIndices(front) + {n};
      } else {
        assert AnsweredIndices(answers) == AnsweredIndices(front);
      }
    } else {
      assert AnsweredIndices(answers) == {};
    }
  }

  lemma MulNonNegative(x: int, y: int)
    requires x >= 0 && y >= 0
    ensures x * y >= 0
  {
  }

  /** A quotient is pinned down by the interval its dividend falls in. */
  lemma DivQuotient(a: int, b: int, q: int)
    requires b > 0 && b * q <= a < b * q + b
    ensures a / b == q
  {
    var r := a / b;
    var m := a % b;
    assert a == b * r + m && 0 <= m < b;
    if r > q {
      MulNonNegative(b, r - q - 1);
    } else if r < q {
      MulNonNegative(b, q - r - 1);
    }
  }

  /** No answers shows 0%, all answered shows 100%. */
  lemma ProgressExtremes(total: nat)
    ensures ProgressPercent(0, total) == 0
    ensures total > 0 ==> ProgressPercent(total, total) == 100
  {
    if total > 0 {
      DivQuotient(200 * 0 + total, 2 * total, 0);
      DivQuotient(200 * total + total, 2 * total, 100);
    }
  }

  // ---------------------------------------------------------------------------------------------
  // The page as an object

  /** Whether a run of the timer effect dispatches anything. */
  predicate TimerDispatches(p: Page)
  {
    p.session.status == Ready && (p.session.remainingTime > 0 || !p.hasSubmitted)
  }

  /**
   * The quiz page mounted over a provider: its `hasSubmittedRef` flag, and the handlers and effects
   * that dispatch to the provider. `marks` counts the `MARK_SUBMITTED` dispatches this page made.
   */
  class QuizPage {
    const provider: QuizProvider
    var hasSubmitted: bool
    ghost var marks: nat

    ghost predicate Valid()
      reads this
    {
      marks == if hasSubmitted then 1 else 0
    }

    /** Mounting: the flag starts down and the visited effect runs once for the current question. */
    constructor (p: QuizProvider)
      requires CursorInRange(p.state)
      modifies p
      ensures provider == p && !hasSubmitted && Valid()
      ensures p.state == MarkCurrentVisited(old(p.state))
      ensures p.storage == if |old(p.state).questions| > 0 then AfterRender(old(p.storage), p.state) else old(p.storage)
    {
      provider := p;
      hasSubmitted := false;
      marks := 0;
      new;
      if |p.state.questions| > 0 {
        p.Dispatch(SetVisited(p.state.currentIndex));
      }
    }

    /** The fetch effect, once it fires, with the reply the request came back with. */
    method FetchQuestions(reply: Reply, dom: string -> string, orders: seq<seq<nat>>)
      requires ShouldFetch(provider.state) && ReplyFits(reply, orders)
      modifies provider
      ensures provider.state == LoadSession(old(provider.state), Outcome(reply, dom, orders))
      ensures provider.storage == PersistState(old(provider.storage), provider.state)
    {
      var before := provider.storage;
      provider.Dispatch(SetStatus(Loading));
      var loading := provider.state;
      match Outcome(reply, dom, orders)
      case Loaded(qs) =>
        provider.Dispatch(SetQuestions(qs));
        AfterRenderAbsorbs(before, loading, provider.state);
        if |qs| > 0 {
          var ready := provider.state;
          provider.Dispatch(SetVisited(0));
          AfterRenderAbsorbs(before, ready, provider.state);
        }
      case Failed(m) =>
        provider.Dispatch(SetError(Some(m)));
        AfterRenderAbsorbs(before, loading, provider.state);
        var failed := provider.state;
        provider.Dispatch(SetStatus(Error));
        AfterRenderAbsorbs(before, failed, provider.state);
    }

    /** The Retry button on the error card. */
    method Retry()
      requires provider.state.status == Error
      modifies provider
      ensures provider.state == RetrySession(old(provider.state))
      ensures provider.storage == AfterRender(old(provider.storage), provider.state)
    {
      var before := provider.storage;
      provider.Dispatch(SetError(None));
      var cleared := provider.state;
      provider.Dispatch(SetStatus(Idle));
      AfterRenderAbsorbs(before, cleared, provider.state);
    }

    /** The confirm button: `handleSubmit` at time `now`. */
    method Submit(now: int)
      requires Valid()
      modifies this, provider
      ensures Valid() && marks <= 1
      ensures Page(provider.state, hasSubmitted) == SubmitStep(old(Page(provider.state, hasSubmitted)), now)
      ensures marks == old(marks) + if Marks(old(Page(provider.state, hasSubmitted)), SubmitClicked(now)) then 1 else 0
      ensures provider.storage ==
        if old(hasSubmitted) then old(provider.storage) else AfterRender(old(provider.storage), provider.state)
    {
      if hasSubmitted {
        return;
      }
      hasSubmitted := true;
      marks := marks + 1;
      provider.Dispatch(MarkSubmitted(now));
    }

    /** One run of the timer effect, with the clock at `now` when it acts. */
    method TimerFires(now: int)
      requires Valid()
      modifies this, provider
      ensures Valid() && marks <= 1
      ensures Page(provider.state, hasSubmitted) == TimerStep(old(Page(provider.state, hasSubmitted)), now)
      ensures marks == old(marks) + if Marks(old(Page(provider.state, hasSubmitted)), TimerFired(now)) then 1 else 0
      ensures provider.storage ==
        if TimerDispatches(old(Page(provider.state, hasSubmitted)))
        then AfterRender(old(provider.storage), provider.state) else old(provider.storage)
    {
      if provider.state.status != Ready {
        return;
      }
      if provider.state.remainingTime <= 0 {
        if !hasSubmitted {
          hasSubmitted := true;
          marks := marks + 1;
          provider.Dispatch(MarkSubmitted(now));
        }
        return;
      }
      provider.Dispatch(SetRemainingTime(TickTime(provider.state.remainingTime)));
    }

    /** `handleNavigate` from the question navigator, and the visited effect it sets off. */
    method NavigateTo(i: int)
      requires Aligned(provider.state) && 0 <= i < |provider.state.questions|
      modifies provider
      ensures provider.state == Navigate(old(provider.state), i)
      ensures provider.storage == AfterRender(old(provider.storage), provider.state)
    {
      var before := provider.storage;
      var moved := i != provider.state.currentIndex;
      provider.Dispatch(SetCurrentIndex(i));
      if moved {
        var current := provider.state;
        provider.Dispatch(SetVisited(i));
        AfterRenderAbsorbs(before, current, provider.state);
      }
    }

    /** `handleNext`. */
    method Next()
      requires Aligned(provider.state) && 0 <= provider.state.currentIndex < |provider.state.questions|
      modifies provider
      ensures provider.state == NextSession(old(provider.state))
      ensures provider.storage == if old(provider.state.currentIndex) < |provider.state.questions| - 1
        then AfterRender(old(provider.storage), provider.state) else old(provider.storage)
    {
      if provider.state.currentIndex < |provider.state.questions| - 1 {
        NavigateTo(provider.state.currentIndex + 1);
      }
    }

    /** `handlePrevious`. */
    method Previous()
      requires Aligned(provider.state) && 0 <= provider.state.currentIndex < |provider.state.questions|
      modifies provider
      ensures provider.state == PreviousSession(old(provider.state))
      ensures provider.storage == if old(provider.state.currentIndex) > 0
        then AfterRender(old(provider.storage), provider.state) else old(provider.storage)
    {
      if provider.state.currentIndex > 0 {
        NavigateTo(provider.state.currentIndex - 1);
      }
    }

    /** `handleSelect`: the chosen option becomes the current question's answer. */
    method Select(value: string)
      requires Aligned(provider.state) && 0 <= provider.state.currentIndex < |provider.state.questions|
      modifies provider
      ensures provider.state == Reducer(old(provider.state), SetSelectedAnswer(old(provider.state).currentIndex, Some(value)))
      ensures provider.storage == AfterRender(old(provider.storage), provider.state)
    {
      provider.Dispatch(SetSelectedAnswer(provider.state.currentIndex, Some(value)));
    }
  }
}
