/** The grammar of tool ids: alphanumeric segments joined by single separators. */
module ToolIds {

  predicate Alnum(c: char) {
    'a' <= c <= 'z' || '0' <= c <= '9'
  }

  predicate Separator(c: char) {
    c == '.' || c == '_' || c == '-'
  }

  predicate Allowed(c: char) {
    Alnum(c) || Separator(c)
  }

  predicate AllAlnum(s: string) {
    forall i | 0 <= i < |s| :: Alnum(s[i])
  }

  predicate AllAllowed(s: string) {
    forall i | 0 <= i < |s| :: Allowed(s[i])
  }

  predicate RunsOn(s: string, i: nat) {
    i + 1 < |s| && Separator(s[i]) && Separator(s[i + 1])
  }

  /** No two separators are adjacent. */
  predicate NoRuns(s: string) {
    forall i {:trigger RunsOn(s, i)} | 0 <= i < |s| :: !RunsOn(s, i)
  }

  /** The pattern as written: a non-empty segment, then any number of separated segments. */
  ghost predicate MatchesPattern(s: string)
    decreases |s|
  {
    exists k | 1 <= k <= |s| :: AllAlnum(s[..k]) && (k == |s| || (Separator(s[k]) && MatchesPattern(s[k + 1..])))
  }

  /** The same, character by character. */
  predicate IsToolId(s: string) {
    s != "" && Alnum(s[0]) && Alnum(s[|s| - 1]) && AllAllowed(s) && NoRuns(s)
  }

  lemma {:induction false} PatternMeansGrammar(s: string)
    requires MatchesPattern(s)
    ensures IsToolId(s)
    decreases |s|
  {
    var k :| 1 <= k <= |s| && AllAlnum(s[..k]) && (k == |s| || (Separator(s[k]) && MatchesPattern(s[k + 1..])));
    assert forall i | 0 <= i < k :: s[i] == s[..k][i] && Alnum(s[i]);
    if k < |s| {
      PatternMeansGrammar(s[k + 1..]);
      SegmentThenId(s, k);
    }
  }

  lemma SegmentThenId(s: string, k: nat)
    requires 1 <= k < |s| && (forall i | 0 <= i < k :: Alnum(s[i])) && Separator(s[k]) && IsToolId(s[k + 1..])
    ensures IsToolId(s)
  {
    var rest := s[k + 1..];
    assert s[|s| - 1] == rest[|rest| - 1] && s[k + 1] == rest[0];
    forall i | 0 <= i < |s| ensures Allowed(s[i]) && !RunsOn(s, i) {
      if i > k {
        assert s[i] == rest[i - k - 1] && !RunsOn(rest, i - k - 1);
        if i + 1 < |s| { assert s[i + 1] == rest[i - k]; }
      }
    }
  }

  /** The first separator at or after `from`, or the end. */
  function SegmentEnd(s: string, from: nat): (k: nat)
    requires from <= |s|
    ensures from <= k <= |s|
    ensures forall i | from <= i < k :: !Separator(s[i])
    ensures k < |s| ==> Separator(s[k])
    decreases |s| - from
  {
    if from == |s| || Separator(s[from]) then from else SegmentEnd(s, from + 1)
  }

  lemma {:induction false} GrammarMeansPattern(s: string)
    requires IsToolId(s)
    ensures MatchesPattern(s)
    decreases |s|
  {
    var k := SegmentEnd(s, 0);
    assert k >= 1;
    assert AllAlnum(s[..k]);
    if k < |s| {
      RestIsId(s, k);
      GrammarMeansPattern(s[k + 1..]);
    }
  }

  lemma RestIsId(s: string, k: nat)
    requires IsToolId(s) && 1 <= k < |s| && Separator(s[k])
    ensures IsToolId(s[k + 1..])
  {
    var rest := s[k + 1..];
    assert k < |s| - 1;
    assert !RunsOn(s, k) && rest[0] == s[k + 1] && Alnum(s[k + 1]);
    forall i | 0 <= i < |rest| ensures Allowed(rest[i]) && !RunsOn(rest, i) {
      assert rest[i] == s[k + 1 + i] && !RunsOn(s, k + 1 + i);
      if i + 1 < |rest| { assert rest[i + 1] == s[k + 2 + i]; }
    }
  }

  /** Two ids joined by one separator are an id. */
  lemma JoinedIds(a: string, separator: char, b: string)
    requires IsToolId(a) && IsToolId(b) && Separator(separator)
    ensures IsToolId(a + [separator] + b)
  {
    var s := a + [separator] + b;
    assert s[0] == a[0] && s[|s| - 1] == b[|b| - 1];
    forall i | 0 <= i < |s| ensures Allowed(s[i]) && !RunsOn(s, i) {
      if i < |a| - 1 {
        assert s[i] == a[i] && s[i + 1] == a[i + 1] && !RunsOn(a, i);
      } else if i > |a| {
        assert s[i] == b[i - |a| - 1] && !RunsOn(b, i - |a| - 1);
        if i + 1 < |s| { assert s[i + 1] == b[i - |a|]; }
      } else if i == |a| - 1 {
        assert s[i] == a[|a| - 1];
      } else {
        assert s[i + 1] == b[0];
      }
    }
  }
}
