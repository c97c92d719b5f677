/**
 * The start page: trimming and validating the email, telling whether a saved quiz can be resumed,
 * and the Start and Start Over buttons.
 */
module StartPage {
  import opened Optional
  import opened QuizContext

  // ---------------------------------------------------------------------------------------------
  // Trimming

  /** JavaScript's white space and line terminators: what `trim` removes and what `\s` matches. */
  predicate IsSpace(c: char)
  {
    c == '\t' || c == '\n' || c == '\U{000B}' || c == '\U{000C}' || c == '\r' || c == ' ' ||
    c == '\U{00A0}' || c == '\U{1680}' || ('\U{2000}' <= c <= '\U{200A}') ||
    c == '\U{2028}' || c == '\U{2029}' || c == '\U{202F}' || c == '\U{205F}' ||
    c == '\U{3000}' || c == '\U{FEFF}'
  }

  /** Every character is white space. */
  predicate AllSpace(s: string)
  {
    forall k :: 0 <= k < |s| ==> IsSpace(s[k])
  }

  /** Leading white space removed: the longest suffix that does not start with white space. */
  function TrimStart(s: string): (r: string)
    ensures |r| <= |s| && r == s[|s| - |r|..]
    ensures AllSpace(s[..|s| - |r|])
    ensures r == [] || !IsSpace(r[0])
  {
    if s != [] && IsSpace(s[0]) then
      var r := TrimStart(s[1..]);
      assert s[..|s| - |r|] == [s[0]] + s[1..][..|s| - 1 - |r|];
      r
    else s
  }

  /** Trailing white space removed: the longest prefix that does not end with white space. */
  function TrimEnd(s: string): (r: string)
    ensures |r| <= |s| && r == s[..|r|]
    ensures AllSpace(s[|r|..])
    ensures r == [] || !IsSpace(r[|r| - 1])
  {
    if s != [] && IsSpace(s[|s| - 1]) then
      var r := TrimEnd(s[..|s| - 1]);
      assert s[|r|..] == s[..|s| - 1][|r|..] + [s[|s| - 1]];
      r
    else s
  }

  /** `String.prototype.trim`. */
  function Trim(s: string): string
  {
    TrimEnd(TrimStart(s))
  }

  /**
   * Trimming keeps the middle piece of the input that starts where the leading white space ends:
   * the input is white space, then the trimmed string, then white space.
   */
  lemma TrimKeepsMiddle(s: string)
    ensures var r, i := Trim(s), |s| - |TrimStart(s)|;
      0 <= i <= |s| - |r| && s == s[..i] + r + s[i + |r|..] &&
      AllSpace(s[..i]) && AllSpace(s[i + |r|..])
  {
    var t := TrimStart(s);
    var r := TrimEnd(t);
    SplitAround(s, t, r, |s| - |t|);
  }

  /** A prefix `r` of the suffix `t` of `s` sits in `s` between what comes before `t` and the rest of `t`. */
  lemma SplitAround(s: string, t: string, r: string, i: nat)
    requires i <= |s| && t == s[i..] && |r| <= |t| && r == t[..|r|]
    ensures s == s[..i] + r + s[i + |r|..] && s[i + |r|..] == t[|r|..]
  {
    assert s[i..i + |r|] == r;
    assert s == s[..i] + s[i..i + |r|] + s[i + |r|..];
  }

  /** A trimmed string has no white space at either end, so trimming it again changes nothing. */
  lemma TrimIdempotent(s: string)
    ensures var r := Trim(s); r == [] || (!IsSpace(r[0]) && !IsSpace(r[|r| - 1]))
    ensures Trim(Trim(s)) == Trim(s)
  {
    var t := TrimStart(s);
    var r := TrimEnd(t);
    if r != [] {
      assert r[0] == t[0];
      assert TrimStart(r) == r;
      assert TrimEnd(r) == r;
    }
  }

  // ---------------------------------------------------------------------------------------------
  // The email pattern

  /** A character `[^\s@]` matches. */
  predicate Plain(c: char)
  {
    !IsSpace(c) && c != '@'
  }

  predicate PlainBetween(s: string, lo: int, hi: int)
    requires 0 <= lo <= hi <= |s|
  {
    forall k :: lo <= k < hi ==> Plain(s[k])
  }

  /**
   * `^[^\s@]+@[^\s@]+\.[^\s@]+$` matches: the input splits at an `@` at `i` and a dot at `j` into three
   * non-empty runs of characters that are neither white space nor `@`.
   */
  predicate MatchesEmailPattern(s: string)
  {
    exists i, j :: 0 < i && i + 1 < j && j + 1 < |s| && s[i] == '@' && s[j] == '.' &&
      PlainBetween(s, 0, i) && PlainBetween(s, i + 1, j) && PlainBetween(s, j + 1, |s|)
  }

  /** The first position of `c` in `s`, if any. */
  function Find(s: string, c: char): (r: Option<nat>)
    ensures r.None? <==> c !in s
    ensures r.Some? ==> r.value < |s| && s[r.value] == c && c !in s[..r.value]
  {
    if s == [] then None
    else if s[0] == c then Some(0)
    else match Find(s[1..], c)
      case None => None
      case Some(k) => assert s[..k + 1] == [s[0]] + s[1..][..k]; Some(k + 1)
  }

  predicate NoSpace(s: string)
  {
    forall k :: 0 <= k < |s| ==> !IsSpace(s[k])
  }

  /**
   * The same test stated as a scan: no white space, one `@` with something before it, and after it
   * a dot that is neither the first nor the last character.
   */
  predicate IsValidEmail(s: string)
  {
    NoSpace(s) &&
    match Find(s, '@')
    case None => false
    case Some(i) =>
      var domain := s[i + 1..];
      i > 0 && Find(domain, '@').None? && |domain| >= 3 && Find(domain[1..|domain| - 1], '.').Some?
  }

  lemma PatternIsValid(s: string, i: int, j: int)
    requires 0 < i && i + 1 < j && j + 1 < |s| && s[i] == '@' && s[j] == '.'
    requires PlainBetween(s, 0, i) && PlainBetween(s, i + 1, j) && PlainBetween(s, j + 1, |s|)
    ensures IsValidEmail(s)
  {
    assert forall k :: 0 <= k < |s| && k != i && k != j ==> Plain(s[k]);
    assert '@' !in s[..i];
    assert Find(s, '@') == Some(i);
    var domain := s[i + 1..];
    assert forall k :: 0 <= k < |domain| ==> domain[k] == s[i + 1 + k];
    assert '@' !in domain;
    var inner := domain[1..|domain| - 1];
    assert inner[j - i - 2] == '.';
  }

  lemma ValidIsPattern(s: string)
    requires IsValidEmail(s)
    ensures MatchesEmailPattern(s)
  {
    var i := Find(s, '@').value;
    var domain := s[i + 1..];
    var inner := domain[1..|domain| - 1];
    var m := Find(inner, '.').value;
    var j := i + 2 + m;
    assert s[j] == inner[m] == '.';
    assert forall k :: 0 <= k < i ==> s[k] != '@' by {
      forall k | 0 <= k < i
        ensures s[k] != '@'
      {
        assert s[k] == s[..i][k];
      }
    }
    assert forall k :: i < k < |s| ==> s[k] != '@' by {
      forall k | i < k < |s|
        ensures s[k] != '@'
      {
        assert s[k] == domain[k - i - 1];
      }
    }
    assert PlainBetween(s, 0, i) && PlainBetween(s, i + 1, j) && PlainBetween(s, j + 1, |s|);
  }

  /** The pattern accepts exactly the inputs the scan accepts. */
  lemma EmailPatternIff(s: string)
    ensures MatchesEmailPattern(s) <==> IsValidEmail(s)
  {
    if MatchesEmailPattern(s) {
      var i, j :| 0 < i && i + 1 < j && j + 1 < |s| && s[i] == '@' && s[j] == '.' &&
        PlainBetween(s, 0, i) && PlainBetween(s, i + 1, j) && PlainBetween(s, j + 1, |s|);
      PatternIsValid(s, i, j);
    }
    if IsValidEmail(s) {
      ValidIsPattern(s);
    }
  }

  lemma ValidEmailNotEmpty(s: string)
    requires IsValidEmail(s)
    ensures s != ""
  {
  }

  const InvalidEmailMessage := "Please enter a valid email address."

  // ---------------------------------------------------------------------------------------------
  // Resuming

  /** `hasSavedQuiz`: an email in the session and a snapshot under the state key. */
  predicate HasSavedQuiz(email: string, storage: map<string, string>)
  {
    email != "" && HasSnapshot(storage)
  }

  /** Whether Start clears the saved quiz first: there is one, and it belongs to another email. */
  predicate StartsOver(email: string, storage: map<string, string>, trimmed: string)
  {
    HasSavedQuiz(email, storage) && trimmed != email
  }

  /**
   * What an accepted Start leaves in the provider, from session `s0` and storage `st0` to `s1` and
   * `st1`: another user's saved quiz is dropped and the session starts over with the new email;
   * otherwise only the email is set. Either way the persist effect has run for the new session.
   */
  predicate Started(s0: Session, st0: map<string, string>, trimmed: string, s1: Session, st1: map<string, string>)
  {
    s1.email == trimmed &&
    if StartsOver(s0.email, st0, trimmed) then
      s1 == Initial.(email := trimmed) && st1 == AfterRender(Cleared(st0), s1)
    else
      s1 == s0.(email := trimmed) && st1 == AfterRender(st0, s1)
  }

  /**
   * A different user's Start leaves storage holding only the new email's fresh session, so a
   * reload resumes nothing of the old quiz.
   */
  lemma SwitchingUserDropsOldQuiz(storage: map<string, string>, trimmed: string)
    requires trimmed != ""
    ensures var after := AfterRender(Cleared(storage), Initial.(email := trimmed));
      LoadState(after) == Initial.(email := trimmed) &&
      after == Cleared(storage)[EmailKey := trimmed][StorageKey := after[StorageKey]]
  {
    LoadAfterPersist(Cleared(storage), Initial.(email := trimmed));
  }

  /** The same user's Start keeps the saved quiz: only the email is set again. */
  lemma SameUserKeepsQuiz(s: Session, storage: map<string, string>, trimmed: string)
    requires trimmed == s.email && trimmed != ""
    ensures !StartsOver(s.email, storage, trimmed)
    ensures Reducer(s, SetEmail(trimmed)) == s
  {
  }

  // ---------------------------------------------------------------------------------------------
  // The page as an object

  /** The start page over a provider: the email input and the error line under it. */
  class StartPage {
    const provider: QuizProvider
    var input: string
    var error: string

    /** The input starts from the session's email. */
    constructor (p: QuizProvider)
      ensures provider == p && input == p.state.email && error == ""
    {
      provider := p;
      input := p.state.email;
      error := "";
    }

    /** Typing in the email field. */
    method Edit(text: string)
      modifies this
      ensures input == text && error == old(error)
    {
      input := text;
    }

    /**
     * The accepted branch of `handleSubmit`: drop the saved quiz when it belongs to another email,
     * then store the trimmed email.
     */
    method Proceed(trimmed: string)
      requires trimmed != ""
      modifies provider
      ensures Started(old(provider.state), old(provider.storage), trimmed, provider.state, provider.storage)
    {
      if StartsOver(provider.state.email, provider.storage, trimmed) {
        ghost var before := provider.storage;
        provider.ClearStorage();
        provider.Dispatch(Reset);
        assert provider.state == Initial;
        assert provider.storage == Cleared(before);
      }
      provider.Dispatch(SetEmail(trimmed));
    }

    /**
     * `handleSubmit`: a malformed email only shows the error; a well-formed one is stored trimmed,
     * after the saved quiz is dropped when it belongs to another email. `proceed` is the move to the quiz.
     */
    method Submit() returns (proceed: bool)
      modifies this, provider
      ensures input == old(input)
      ensures proceed <==> MatchesEmailPattern(Trim(input))
      ensures !proceed ==> (error == InvalidEmailMessage &&
        provider.state == old(provider.state) && provider.storage == old(provider.storage))
      ensures proceed ==> (error == "" && Trim(input) != "" &&
        Started(old(provider.state), old(provider.storage), Trim(input), provider.state, provider.storage))
    {
      var trimmed := Trim(input);
      var ok := IsValidEmail(trimmed);
      assert ok <==> MatchesEmailPattern(trimmed) by { EmailPatternIff(trimmed); }
      if !ok {
        error := InvalidEmailMessage;
        return false;
      }
      assert trimmed != "" by { ValidEmailNotEmpty(trimmed); }
      error := "";
      Proceed(trimmed);
      return true;
    }

    /** `handleStartOver`: clear both keys, reset the session, empty the form. */
    method StartOver()
      modifies this, provider
      ensures input == "" && error == ""
      ensures provider.state == Initial
      ensures provider.storage == Cleared(old(provider.storage))
    {
      provider.ClearStorage();
      provider.Dispatch(Reset);
      input := "";
      error := "";
    }
  }
}
