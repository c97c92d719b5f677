/**
 * The quiz session: its nine-field state, the reducer that is the only way to change it,
 * and its mirror in the browser's key-value storage (`loadState` / `persistState`).
 */
module QuizContext {
  import opened Optional
  import opened Json
  import JsonRoundTrip

  const StorageKey: string := "quiz_state_v1"
  const EmailKey: string := "quiz_email_v1"
  /** Seconds allowed for one quiz: thirty minutes. */
  const DefaultTime: int := 30 * 60

  datatype Status = Idle | Loading | Ready | Error | Submitted

  /** One multiple-choice question; `text` is the record's `question` field. */
  datatype Question = Question(id: string, text: string, correctAnswer: string, options: seq<string>)

  /** The session state; `None` stands for the source's `null`. */
  datatype Session = Session(
    email: string,
    questions: seq<Question>,
    currentIndex: int,
    selectedAnswers: seq<Option<string>>,
    visited: seq<bool>,
    remainingTime: int,
    status: Status,
    error: Option<string>,
    submittedAt: Option<int>)

  const Initial: Session := Session("", [], 0, [], [], DefaultTime, Idle, None, None)

  /** One answer slot and one visited flag per question. */
  predicate Aligned(s: Session)
  {
    |s.selectedAnswers| == |s.questions| && |s.visited| == |s.questions|
  }

  datatype Action =
    | SetEmail(email: string)
    | SetStatus(status: Status)
    | SetError(error: Option<string>)
    | SetQuestions(questions: seq<Question>)
    | SetCurrentIndex(index: int)
    | SetVisited(index: int)
    | SetSelectedAnswer(index: int, value: Option<string>)
    | SetRemainingTime(time: int)
    | MarkSubmitted(at: int)
    | Reset
    | Unrecognised(tag: string)

  /** The slot an indexed action writes exists (the source never writes past the end). */
  predicate IndexInRange(s: Session, a: Action)
  {
    (a.SetVisited? ==> 0 <= a.index < |s.visited|) &&
    (a.SetSelectedAnswer? ==> 0 <= a.index < |s.selectedAnswers|)
  }

  function Reducer(s: Session, a: Action): Session
    requires IndexInRange(s, a)
  {
    match a
    case SetEmail(e) => s.(email := e)
    case SetStatus(st) => s.(status := st)
    case SetError(err) => s.(error := err)
    case SetQuestions(qs) =>
      s.(questions := qs,
         selectedAnswers := seq(|qs|, _ => None),
         visited := seq(|qs|, _ => false),
         currentIndex := 0,
         remainingTime := DefaultTime,
         status := Ready,
         error := None,
         submittedAt := None)
    case SetCurrentIndex(i) => s.(currentIndex := i)
    case SetVisited(i) => s.(visited := s.visited[i := true])
    case SetSelectedAnswer(i, v) => s.(selectedAnswers := s.selectedAnswers[i := v])
    case SetRemainingTime(t) => s.(remainingTime := t)
    case MarkSubmitted(at) => s.(status := Submitted, submittedAt := Some(at))
    case Reset => Initial
    case Unrecognised(_) => s
  }

  // ---------------------------------------------------------------------------------------------
  // Properties of the reducer

  /** Loading questions starts a fresh attempt, whatever came before. */
  lemma SetQuestionsStartsAttempt(s: Session, qs: seq<Question>)
    ensures var r := Reducer(s, SetQuestions(qs));
      r.questions == qs && Aligned(r) &&
      (forall i :: 0 <= i < |qs| ==> r.selectedAnswers[i] == None && !r.visited[i]) &&
      r.currentIndex == 0 && r.remainingTime == 1800 &&
      r.status == Ready && r.error == None && r.submittedAt == None &&
      r.email == s.email
  {
  }

  /** Marking a question visited sets its flag and nothing else, and doing it twice is doing it once. */
  lemma SetVisitedMarksOne(s: Session, i: int)
    requires 0 <= i < |s.visited|
    ensures var r := Reducer(s, SetVisited(i));
      |r.visited| == |s.visited| && r.visited[i] &&
      (forall j :: 0 <= j < |s.visited| && j != i ==> r.visited[j] == s.visited[j]) &&
      r.(visited := s.visited) == s &&
      Reducer(r, SetVisited(i)) == r
  {
  }

  /** Selecting an answer writes that slot only; a later selection for the same question replaces it. */
  lemma SelectAnswerOverwrites(s: Session, i: int, v: Option<string>, w: Option<string>)
    requires 0 <= i < |s.selectedAnswers|
    ensures var r := Reducer(s, SetSelectedAnswer(i, v));
      |r.selectedAnswers| == |s.selectedAnswers| && r.selectedAnswers[i] == v &&
      (forall j :: 0 <= j < |s.selectedAnswers| && j != i ==> r.selectedAnswers[j] == s.selectedAnswers[j]) &&
      r.(selectedAnswers := s.selectedAnswers) == s &&
      Reducer(r, SetSelectedAnswer(i, w)) == Reducer(s, SetSelectedAnswer(i, w))
  {
  }

  /** Every action keeps answers and visited flags aligned with the questions; loading questions aligns them. */
  lemma ReducerKeepsAligned(s: Session, a: Action)
    requires IndexInRange(s, a)
    requires Aligned(s) || a.SetQuestions? || a.Reset?
    ensures Aligned(Reducer(s, a))
  {
  }

  /** The single-field actions each change exactly their own field; marking submitted changes status and time stamp. */
  lemma SingleFieldActions(s: Session, e: string, st: Status, err: Option<string>, i: int, t: int, at: int)
    ensures Reducer(s, SetEmail(e)) == s.(email := e)
    ensures Reducer(s, SetStatus(st)) == s.(status := st)
    ensures Reducer(s, SetError(err)) == s.(error := err)
    ensures Reducer(s, SetCurrentIndex(i)) == s.(currentIndex := i)
    ensures Reducer(s, SetRemainingTime(t)) == s.(remainingTime := t)
    ensures Reducer(s, MarkSubmitted(at)) == s.(status := Submitted, submittedAt := Some(at))
  {
  }

  /** Reset forgets the state it is given; an action of unknown type leaves the state as it is. */
  lemma ResetAndUnknown(s: Session, s': Session, tag: string)
    ensures Reducer(s, Reset) == Reducer(s', Reset) == Initial
    ensures Reducer(s, Unrecognised(tag)) == s
  {
  }

  // ---------------------------------------------------------------------------------------------
  // The snapshot as JSON

  function StatusName(st: Status): string
  {
    match st
    case Idle => "idle"
    case Loading => "loading"
    case Ready => "ready"
    case Error => "error"
    case Submitted => "submitted"
  }

  function QuestionToJson(q: Question): Json
  {
    JObject([
      Member("id", JString(q.id)),
      Member("question", JString(q.text)),
      Member("correctAnswer", JString(q.correctAnswer)),
      Member("options", JArray(StringsToJson(q.options)))])
  }

  function StringsToJson(xs: seq<string>): (r: seq<Json>)
    ensures |r| == |xs|
  {
    if xs == [] then [] else [JString(xs[0])] + StringsToJson(xs[1..])
  }

  function QuestionsToJson(qs: seq<Question>): (r: seq<Json>)
    ensures |r| == |qs|
  {
    if qs == [] then [] else [QuestionToJson(qs[0])] + QuestionsToJson(qs[1..])
  }

  function AnswersToJson(xs: seq<Option<string>>): (r: seq<Json>)
    ensures |r| == |xs|
  {
    if xs == [] then [] else [NullableString(xs[0])] + AnswersToJson(xs[1..])
  }

  function BoolsToJson(xs: seq<bool>): (r: seq<Json>)
    ensures |r| == |xs|
  {
    if xs == [] then [] else [JBool(xs[0])] + BoolsToJson(xs[1..])
  }

  function NullableString(x: Option<string>): Json
  {
    match x
    case None => JNull
    case Some(v) => JString(v)
  }

  function NullableNumber(x: Option<int>): Json
  {
    match x
    case None => JNull
    case Some(v) => JNumber(v)
  }

  /** The payload `persistState` writes: the nine fields, in this order. */
  function SessionToJson(s: Session): Json
  {
    JObject([
      Member("email", JString(s.email)),
      Member("questions", JArray(QuestionsToJson(s.questions))),
      Member("currentIndex", JNumber(s.currentIndex)),
      Member("selectedAnswers", JArray(AnswersToJson(s.selectedAnswers))),
      Member("visited", JArray(BoolsToJson(s.visited))),
      Member("remainingTime", JNumber(s.remainingTime)),
      Member("status", JString(StatusName(s.status))),
      Member("error", NullableString(s.error)),
      Member("submittedAt", NullableNumber(s.submittedAt))])
  }

  /** The value of a key in a parsed object; when a key repeats, the last one wins, as in `JSON.parse`. */
  function Lookup(members: seq<Member>, key: string): Option<Json>
  {
    if members == [] then None
    else if members[|members| - 1].key == key then Some(members[|members| - 1].value)
    else Lookup(members[..|members| - 1], key)
  }

  function AsStatus(j: Json): Option<Status>
  {
    if j == JString("idle") then Some(Idle)
    else if j == JString("loading") then Some(Loading)
    else if j == JString("ready") then Some(Ready)
    else if j == JString("error") then Some(Error)
    else if j == JString("submitted") then Some(Submitted)
    else None
  }

  function AsStrings(items: seq<Json>): Option<seq<string>>
  {
    if items == [] then Some([])
    else match (items[0], AsStrings(items[1..]))
      case (JString(x), Some(xs)) => Some([x] + xs)
      case _ => None
  }

  function AsBools(items: seq<Json>): Option<seq<bool>>
  {
    if items == [] then Some([])
    else match (items[0], AsBools(items[1..]))
      case (JBool(x), Some(xs)) => Some([x] + xs)
      case _ => None
  }

  function AsNullableString(j: Json): Option<Option<string>>
  {
    match j
    case JNull => Some(None)
    case JString(v) => Some(Some(v))
    case _ => None
  }

  function AsNullableNumber(j: Json): Option<Option<int>>
  {
    match j
    case JNull => Some(None)
    case JNumber(v) => Some(Some(v))
    case _ => None
  }

  function AsAnswers(items: seq<Json>): Option<seq<Option<string>>>
  {
    if items == [] then Some([])
    else match (AsNullableString(items[0]), AsAnswers(items[1..]))
      case (Some(x), Some(xs)) => Some([x] + xs)
      case _ => None
  }

  function AsQuestion(j: Json): Option<Question>
  {
    match j
    case JObject(ms) =>
      (match (Lookup(ms, "id"), Lookup(ms, "question"), Lookup(ms, "correctAnswer"), Lookup(ms, "options"))
       case (Some(JString(id)), Some(JString(text)), Some(JString(c)), Some(JArray(os))) =>
         (match AsStrings(os)
          case Some(options) => Some(Question(id, text, c, options))
          case None => None)
       case _ => None)
    case _ => None
  }

  function AsQuestions(items: seq<Json>): Option<seq<Question>>
  {
    if items == [] then Some([])
    else match (AsQuestion(items[0]), AsQuestions(items[1..]))
      case (Some(q), Some(qs)) => Some([q] + qs)
      case _ => None
  }

  /** The field `key` of a snapshot object, decoded by `decode` when it holds an array. */
  function ArrayField<T>(members: seq<Member>, key: string, decode: seq<Json> -> Option<T>): Option<T>
  {
    match Lookup(members, key)
    case Some(JArray(items)) => decode(items)
    case _ => None
  }

  function NumberField(members: seq<Member>, key: string): Option<int>
  {
    match Lookup(members, key)
    case Some(JNumber(n)) => Some(n)
    case _ => None
  }

  function OtherField<T>(members: seq<Member>, key: string, decode: Json -> Option<T>): Option<T>
  {
    match Lookup(members, key)
    case Some(j) => decode(j)
    case None => None
  }

  /**
   * `{ ...initialState, ...saved, email: saved.email || email }` for a parsed snapshot object:
   * each field present with a value of its type overrides the default.
   */
  function Restore(members: seq<Member>, storedEmail: string): Session
  {
    Session(
      email := match Lookup(members, "email")
               case Some(JString(e)) => if e != "" then e else storedEmail
               case _ => storedEmail,
      questions := ArrayField(members, "questions", AsQuestions).GetOr(Initial.questions),
      currentIndex := NumberField(members, "currentIndex").GetOr(Initial.currentIndex),
      selectedAnswers := ArrayField(members, "selectedAnswers", AsAnswers).GetOr(Initial.selectedAnswers),
      visited := ArrayField(members, "visited", AsBools).GetOr(Initial.visited),
      remainingTime := NumberField(members, "remainingTime").GetOr(Initial.remainingTime),
      status := OtherField(members, "status", AsStatus).GetOr(Initial.status),
      error := OtherField(members, "error", AsNullableString).GetOr(Initial.error),
      submittedAt := OtherField(members, "submittedAt", AsNullableNumber).GetOr(Initial.submittedAt))
  }

  // ---------------------------------------------------------------------------------------------
  // Storage

  /** `localStorage.getItem(EMAIL_KEY) || ''`. */
  function StoredEmail(storage: map<string, string>): string
  {
    if EmailKey in storage then storage[EmailKey] else ""
  }

  /** `getItem(STORAGE_KEY)` is a non-empty string. */
  predicate HasSnapshot(storage: map<string, string>)
  {
    StorageKey in storage && storage[StorageKey] != ""
  }

  /** `loadState`: the session a page load starts from. */
  function LoadState(storage: map<string, string>): Session
  {
    var email := StoredEmail(storage);
    if !HasSnapshot(storage) then Initial.(email := email)
    else match Parse(storage[StorageKey])
      case None => Initial                           // JSON.parse threw
      case Some(JNull) => Initial                    // reading `.email` of null threw
      case Some(JObject(members)) => Restore(members, email)
      case Some(_) => Initial.(email := email)       // spreading a primitive or array adds none of the fields
  }

  /** `persistState`: the email under its own key when there is one, and the snapshot as JSON. */
  function PersistState(storage: map<string, string>, s: Session): map<string, string>
  {
    var withEmail := if s.email != "" then storage[EmailKey := s.email] else storage;
    withEmail[StorageKey := Stringify(SessionToJson(s))]
  }

  /** The provider persists a state only when it has an email or questions. */
  predicate ShouldPersist(s: Session)
  {
    s.email != "" || |s.questions| > 0
  }

  /** The storage after the persist effect has run for state `s`. */
  function AfterRender(storage: map<string, string>, s: Session): map<string, string>
  {
    if ShouldPersist(s) then PersistState(storage, s) else storage
  }

  /** `clearStorage`: both keys removed. */
  function Cleared(storage: map<string, string>): map<string, string>
  {
    storage - {StorageKey, EmailKey}
  }

  // ---------------------------------------------------------------------------------------------
  // Properties of load and persist

  /** The three outcomes of `loadState`. */
  lemma LoadStateOutcomes(storage: map<string, string>)
    ensures !HasSnapshot(storage) ==> LoadState(storage) == Initial.(email := StoredEmail(storage))
    ensures HasSnapshot(storage) && Parse(storage[StorageKey]).None? ==> LoadState(storage) == Initial
    ensures HasSnapshot(storage) && Parse(storage[StorageKey]).Some? && Parse(storage[StorageKey]).value.JObject? ==>
      var r := LoadState(storage);
      var ms := Parse(storage[StorageKey]).value.members;
      ((Lookup(ms, "email").Some? && Lookup(ms, "email").value.JString? && Lookup(ms, "email").value.s != "")
         ==> r.email == Lookup(ms, "email").value.s) &&
      (Lookup(ms, "email") == None ==> r.email == StoredEmail(storage)) &&
      (Lookup(ms, "email") == Some(JString("")) ==> r.email == StoredEmail(storage)) &&
      (Lookup(ms, "remainingTime") == None ==> r.remainingTime == DefaultTime) &&
      (Lookup(ms, "status") == None ==> r.status == Idle)
  {
  }

  /**
   * A snapshot that parses to an object: every field present with a value of its type overrides
   * the initial value, every missing field keeps it, and an empty or missing email falls back to
   * the stored one.
   */
  lemma LoadStateFields(storage: map<string, string>, ms: seq<Member>)
    requires HasSnapshot(storage) && Parse(storage[StorageKey]) == Some(JObject(ms))
    ensures var r, e := LoadState(storage), Lookup(ms, "email");
      (e == None ==> r.email == StoredEmail(storage)) &&
      (e == Some(JString("")) ==> r.email == StoredEmail(storage)) &&
      (e.Some? && e.value.JString? && e.value.s != "" ==> r.email == e.value.s)
    ensures var r, q := LoadState(storage), Lookup(ms, "questions");
      (q == None ==> r.questions == Initial.questions) &&
      (q.Some? && q.value.JArray? && AsQuestions(q.value.items).Some? ==> r.questions == AsQuestions(q.value.items).value)
    ensures var r, c := LoadState(storage), Lookup(ms, "currentIndex");
      (c == None ==> r.currentIndex == Initial.currentIndex) &&
      (c.Some? && c.value.JNumber? ==> r.currentIndex == c.value.n)
    ensures var r, a := LoadState(storage), Lookup(ms, "selectedAnswers");
      (a == None ==> r.selectedAnswers == Initial.selectedAnswers) &&
      (a.Some? && a.value.JArray? && AsAnswers(a.value.items).Some? ==> r.selectedAnswers == AsAnswers(a.value.items).value)
    ensures var r, v := LoadState(storage), Lookup(ms, "visited");
      (v == None ==> r.visited == Initial.visited) &&
      (v.Some? && v.value.JArray? && AsBools(v.value.items).Some? ==> r.visited == AsBools(v.value.items).value)
    ensures var r, t := LoadState(storage), Lookup(ms, "remainingTime");
      (t == None ==> r.remainingTime == Initial.remainingTime) &&
      (t.Some? && t.value.JNumber? ==> r.remainingTime == t.value.n)
    ensures var r, st := LoadState(storage), Lookup(ms, "status");
      (st == None ==> r.status == Initial.status) &&
      (forall x :: st == Some(JString(StatusName(x))) ==> r.status == x)
    ensures var r, err := LoadState(storage), Lookup(ms, "error");
      (err == None || err == Some(JNull) ==> r.error == None) &&
      (err.Some? && err.value.JString? ==> r.error == Some(err.value.s))
    ensures var r, at := LoadState(storage), Lookup(ms, "submittedAt");
      (at == None || at == Some(JNull) ==> r.submittedAt == None) &&
      (at.Some? && at.value.JNumber? ==> r.submittedAt == Some(at.value.n))
  {
  }

  /** Persisting writes the snapshot key, the email key exactly when there is an email, and nothing else. */
  lemma PersistStateWrites(storage: map<string, string>, s: Session)
    ensures var st := PersistState(storage, s);
      StorageKey in st && st[StorageKey] != "" &&
      (EmailKey in st && st[EmailKey] == s.email <==> s.email != "" || (EmailKey in storage && storage[EmailKey] == s.email)) &&
      (s.email == "" ==> (EmailKey in st <==> EmailKey in storage) && (EmailKey in storage ==> st[EmailKey] == storage[EmailKey])) &&
      (forall k :: k != StorageKey && k != EmailKey ==> (k in st <==> k in storage) && (k in st ==> st[k] == storage[k]))
  {
    JsonRoundTrip.StringifyStart(SessionToJson(s));
  }

  lemma {:induction false} StringsRoundTrip(xs: seq<string>)
    ensures AsStrings(StringsToJson(xs)) == Some(xs)
  {
    if xs != [] {
      StringsRoundTrip(xs[1..]);
      assert [xs[0]] + xs[1..] == xs;
    }
  }

  lemma {:induction false} BoolsRoundTrip(xs: seq<bool>)
    ensures AsBools(BoolsToJson(xs)) == Some(xs)
  {
    if xs != [] {
      BoolsRoundTrip(xs[1..]);
      assert [xs[0]] + xs[1..] == xs;
    }
  }

  lemma {:induction false} AnswersRoundTrip(xs: seq<Option<string>>)
    ensures AsAnswers(AnswersToJson(xs)) == Some(xs)
  {
    if xs != [] {
      AnswersRoundTrip(xs[1..]);
      assert [xs[0]] + xs[1..] == xs;
    }
  }

  /** A key that no later member repeats is found with the value at its position. */
  lemma {:induction false} LookupFinds(members: seq<Member>, i: nat, key: string)
    requires i < |members| && members[i].key == key
    requires forall j :: i < j < |members| ==> members[j].key != key
    ensures Lookup(members, key) == Some(members[i].value)
    decreases |members|
  {
    if i < |members| - 1 {
      LookupFinds(members[..|members| - 1], i, key);
    }
  }

  lemma QuestionRoundTrip(q: Question)
    ensures AsQuestion(QuestionToJson(q)) == Some(q)
  {
    var ms := QuestionToJson(q).members;
    LookupFinds(ms, 0, "id");
    LookupFinds(ms, 1, "question");
    LookupFinds(ms, 2, "correctAnswer");
    LookupFinds(ms, 3, "options");
    StringsRoundTrip(q.options);
  }

  lemma {:induction false} QuestionsRoundTrip(qs: seq<Question>)
    ensures AsQuestions(QuestionsToJson(qs)) == Some(qs)
  {
    if qs != [] {
      QuestionRoundTrip(qs[0]);
      QuestionsRoundTrip(qs[1..]);
      assert [qs[0]] + qs[1..] == qs;
    }
  }

  lemma QuestionsField(s: Session)
    ensures ArrayField(SessionToJson(s).members, "questions", AsQuestions) == Some(s.questions)
  {
    LookupFinds(SessionToJson(s).members, 1, "questions");
    QuestionsRoundTrip(s.questions);
  }

  lemma AnswersField(s: Session)
    ensures ArrayField(SessionToJson(s).members, "selectedAnswers", AsAnswers) == Some(s.selectedAnswers)
  {
    LookupFinds(SessionToJson(s).members, 3, "selectedAnswers");
    AnswersRoundTrip(s.selectedAnswers);
  }

  lemma VisitedField(s: Session)
    ensures ArrayField(SessionToJson(s).members, "visited", AsBools) == Some(s.visited)
  {
    LookupFinds(SessionToJson(s).members, 4, "visited");
    BoolsRoundTrip(s.visited);
  }

  lemma SnapshotLists(s: Session)
    ensures var ms := SessionToJson(s).members;
      ArrayField(ms, "questions", AsQuestions) == Some(s.questions) &&
      ArrayField(ms, "selectedAnswers", AsAnswers) == Some(s.selectedAnswers) &&
      ArrayField(ms, "visited", AsBools) == Some(s.visited)
  {
    QuestionsField(s);
    AnswersField(s);
    VisitedField(s);
  }

  lemma SnapshotScalars(s: Session)
    ensures var ms := SessionToJson(s).members;
      Lookup(ms, "email") == Some(JString(s.email)) &&
      NumberField(ms, "currentIndex") == Some(s.currentIndex) &&
      NumberField(ms, "remainingTime") == Some(s.remainingTime) &&
      OtherField(ms, "status", AsStatus) == Some(s.status) &&
      OtherField(ms, "error", AsNullableString) == Some(s.error) &&
      OtherField(ms, "submittedAt", AsNullableNumber) == Some(s.submittedAt)
  {
    var ms := SessionToJson(s).members;
    assert Lookup(ms, "email") == Some(JString(s.email)) by { LookupFinds(ms, 0, "email"); }
    assert Lookup(ms, "currentIndex") == Some(JNumber(s.currentIndex)) by { LookupFinds(ms, 2, "currentIndex"); }
    assert Lookup(ms, "remainingTime") == Some(JNumber(s.remainingTime)) by { LookupFinds(ms, 5, "remainingTime"); }
    assert Lookup(ms, "status") == Some(JString(StatusName(s.status))) by { LookupFinds(ms, 6, "status"); }
    assert Lookup(ms, "error") == Some(NullableString(s.error)) by { LookupFinds(ms, 7, "error"); }
    assert Lookup(ms, "submittedAt") == Some(NullableNumber(s.submittedAt)) by { LookupFinds(ms, 8, "submittedAt"); }
  }

  /** Restoring the snapshot of a session gives back every field but the email, which also needs a stored one. */
  lemma RestoreSnapshot(s: Session, storedEmail: string)
    ensures Restore(SessionToJson(s).members, storedEmail) == s.(email := if s.email != "" then s.email else storedEmail)
  {
    SnapshotLists(s);
    SnapshotScalars(s);
  }

  /** Loading after persisting gives back the session, when it has an email. */
  lemma LoadAfterPersist(storage: map<string, string>, s: Session)
    requires s.email != ""
    ensures LoadState(PersistState(storage, s)) == s
  {
    var st := PersistState(storage, s);
    JsonRoundTrip.ParseStringify(SessionToJson(s));
    JsonRoundTrip.StringifyStart(SessionToJson(s));
    assert StoredEmail(st) == s.email;
    RestoreSnapshot(s, s.email);
  }

  /** Without an email the snapshot restores every field, and the email comes from the separately stored key. */
  lemma LoadAfterPersistNoEmail(storage: map<string, string>, s: Session)
    requires s.email == ""
    ensures LoadState(PersistState(storage, s)) == s.(email := StoredEmail(storage))
  {
    var st := PersistState(storage, s);
    JsonRoundTrip.ParseStringify(SessionToJson(s));
    JsonRoundTrip.StringifyStart(SessionToJson(s));
    assert StoredEmail(st) == StoredEmail(storage);
    RestoreSnapshot(s, StoredEmail(storage));
  }

  /** A later persist of a session with the same email replaces all an earlier one wrote. */
  lemma AfterRenderAbsorbs(storage: map<string, string>, s1: Session, s2: Session)
    requires s1.email == s2.email
    requires ShouldPersist(s1) ==> ShouldPersist(s2)
    ensures AfterRender(AfterRender(storage, s1), s2) == AfterRender(storage, s2)
  {
  }

  /** After clearing, a load starts from the initial session. */
  lemma LoadAfterClear(storage: map<string, string>)
    ensures LoadState(Cleared(storage)) == Initial
  {
  }

  // ---------------------------------------------------------------------------------------------
  // The provider: the live state and the storage it mirrors into

  class QuizProvider {
    var state: Session
    var storage: map<string, string>

    /** `useReducer(reducer, undefined, loadState)`, then the persist effect's run on mount. */
    constructor (saved: map<string, string>)
      ensures state == LoadState(saved)
      ensures storage == AfterRender(saved, state)
    {
      var loaded := LoadState(saved);
      state := loaded;
      storage := if ShouldPersist(loaded) then PersistState(saved, loaded) else saved;
    }

    /**
     * `dispatch`, followed by the persist effect for the new state. An unknown action returns the
     * same state object, so React does not render again and the effect does not run.
     */
    method Dispatch(a: Action)
      requires IndexInRange(state, a)
      modifies this
      ensures state == Reducer(old(state), a)
      ensures storage == if a.Unrecognised? then old(storage) else AfterRender(old(storage), state)
    {
      state := Reducer(state, a);
      if !a.Unrecognised? && ShouldPersist(state) {
        storage := PersistState(storage, state);
      }
    }

    /** `clearStorage`. */
    method ClearStorage()
      modifies this
      ensures state == old(state)
      ensures storage == Cleared(old(storage))
    {
      storage := storage - {StorageKey, EmailKey};
    }
  }
}
