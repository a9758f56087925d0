/** Names a server chose, made into tool ids. */
module McpToolIds {
  import opened ToolIds
  import opened ToolNames

  /** `toLowerCase`, of which only this is used: it leaves allowed characters alone. */
  type Lower = string -> string

  ghost predicate FixesAllowed(lower: Lower) {
    forall s {:trigger lower(s)} :: AllAllowed(s) ==> lower(s) == s
  }

  function SkipForbidden(s: string): (r: string)
    ensures |r| <= |s|
    ensures r != "" ==> Allowed(r[0])
  {
    if s == "" || Allowed(s[0]) then s else SkipForbidden(s[1..])
  }

  function SkipSeparators(s: string): (r: string)
    ensures |r| <= |s| && (AllAllowed(s) ==> AllAllowed(r))
    ensures r != "" ==> !Separator(r[0])
    ensures s != "" && Separator(s[0]) ==> |r| < |s|
  {
    if s == "" || !Separator(s[0]) then s else SkipSeparators(s[1..])
  }

  /** Every run of forbidden characters becomes one underscore. */
  function ReplaceForbidden(s: string): (r: string)
    ensures AllAllowed(r)
    decreases |s|
  {
    if s == "" then ""
    else if Allowed(s[0]) then [s[0]] + ReplaceForbidden(s[1..])
    else "_" + ReplaceForbidden(SkipForbidden(s[1..]))
  }

  /** Every run of two or more separators becomes one underscore. */
  function CollapseRuns(s: string): (r: string)
    ensures AllAllowed(s) ==> AllAllowed(r)
    ensures s != "" && !Separator(s[0]) ==> r != "" && r[0] == s[0]
    decreases |s|
  {
    if s == "" then ""
    else if |s| >= 2 && Separator(s[0]) && Separator(s[1]) then "_" + CollapseRuns(SkipSeparators(s))
    else [s[0]] + CollapseRuns(s[1..])
  }

  lemma ConsNoRuns(c: char, s: string)
    requires NoRuns(s) && (Separator(c) && s != "" ==> !Separator(s[0]))
    ensures NoRuns([c] + s)
  {
    var longer := [c] + s;
    forall i | 0 <= i < |longer| ensures !RunsOn(longer, i) {
      if i > 0 {
        assert !RunsOn(s, i - 1) && longer[i] == s[i - 1];
        if i + 1 < |longer| { assert longer[i + 1] == s[i]; }
      }
    }
  }

  lemma {:induction false} CollapsedHasNoRuns(s: string)
    ensures NoRuns(CollapseRuns(s))
    decreases |s|
  {
    if s != "" {
      if |s| >= 2 && Separator(s[0]) && Separator(s[1]) {
        CollapsedHasNoRuns(SkipSeparators(s));
        ConsNoRuns('_', CollapseRuns(SkipSeparators(s)));
      } else {
        CollapsedHasNoRuns(s[1..]);
        ConsNoRuns(s[0], CollapseRuns(s[1..]));
      }
    }
  }

  function TrimStart(s: string): string {
    SkipSeparators(s)
  }

  function TrimEnd(s: string): (r: string)
    ensures r != "" ==> s != "" && r[0] == s[0] && !Separator(r[|r| - 1])
  {
    if s == "" || !Separator(s[|s| - 1]) then s
    else
      assert |s| > 1 ==> s[..|s| - 1][0] == s[0];
      TrimEnd(s[..|s| - 1])
  }

  function SanitizeSegment(lower: Lower, value: string): string {
    var sanitized := TrimEnd(TrimStart(CollapseRuns(ReplaceForbidden(lower(value)))));
    if |sanitized| > 0 then sanitized else "unnamed"
  }

  function McpToolId(lower: Lower, serverId: string, toolName: string): string {
    "mcp" + "." + SanitizeSegment(lower, serverId) + "." + SanitizeSegment(lower, toolName)
  }

  predicate Clean(s: string) {
    AllAllowed(s) && NoRuns(s)
  }

  lemma SliceStaysClean(s: string, from: nat, to: nat)
    requires Clean(s) && from <= to <= |s|
    ensures Clean(s[from..to])
  {
    var r := s[from..to];
    forall i | 0 <= i < |r| ensures Allowed(r[i]) && !RunsOn(r, i) {
      assert r[i] == s[from + i] && !RunsOn(s, from + i);
      if i + 1 < |r| { assert r[i + 1] == s[from + i + 1]; }
    }
  }

  lemma {:induction false} TrimStartStaysClean(s: string)
    requires Clean(s)
    ensures Clean(TrimStart(s))
  {
    if s != "" && Separator(s[0]) {
      SliceStaysClean(s, 1, |s|);
      assert s[1..] == s[1..|s|];
      TrimStartStaysClean(s[1..]);
    }
  }

  lemma {:induction false} TrimEndStaysClean(s: string)
    requires Clean(s)
    ensures Clean(TrimEnd(s))
  {
    if s != "" && Separator(s[|s| - 1]) {
      SliceStaysClean(s, 0, |s| - 1);
      assert s[..|s| - 1] == s[0..|s| - 1];
      TrimEndStaysClean(s[..|s| - 1]);
    }
  }

  lemma TrimmedIsToolId(s: string)
    requires Clean(s) && TrimEnd(TrimStart(s)) != ""
    ensures IsToolId(TrimEnd(TrimStart(s)))
  {
    var t := TrimStart(s);
    var r := TrimEnd(t);
    TrimStartStaysClean(s);
    TrimEndStaysClean(t);
    assert Allowed(r[0]) && Allowed(r[|r| - 1]);
  }

  /** Whatever name a server chose, the segment is in the grammar. */
  lemma SanitizedIsToolId(lower: Lower, value: string)
    ensures IsToolId(SanitizeSegment(lower, value))
  {
    var collapsed := CollapseRuns(ReplaceForbidden(lower(value)));
    CollapsedHasNoRuns(ReplaceForbidden(lower(value)));
    if TrimEnd(TrimStart(collapsed)) != "" {
      TrimmedIsToolId(collapsed);
    }
  }

  lemma {:induction false} NothingForbidden(s: string)
    requires AllAllowed(s)
    ensures ReplaceForbidden(s) == s
  {
    if s != "" {
      NothingForbidden(s[1..]);
      assert s == [s[0]] + s[1..];
    }
  }

  lemma {:induction false} NothingToCollapse(s: string)
    requires NoRuns(s)
    ensures CollapseRuns(s) == s
  {
    if s != "" {
      forall i | 0 <= i < |s| - 1 ensures !RunsOn(s[1..], i) {
        assert !RunsOn(s, i + 1) && s[1..][i] == s[i + 1];
        if i + 1 < |s| - 1 { assert s[1..][i + 1] == s[i + 2]; }
      }
      assert !RunsOn(s, 0);
      NothingToCollapse(s[1..]);
      assert s == [s[0]] + s[1..];
    }
  }

  /** A tool id is left as it is, so sanitizing twice is sanitizing once. */
  lemma ToolIdsAreSanitized(lower: Lower, id: string)
    requires FixesAllowed(lower) && IsToolId(id)
    ensures SanitizeSegment(lower, id) == id
  {
    NothingForbidden(id);
    assert CollapseRuns(id) == id by { NothingToCollapse(id); }
    NothingToTrim(id);
  }

  lemma NothingToTrim(s: string)
    requires s != "" && !Separator(s[0]) && !Separator(s[|s| - 1])
    ensures TrimEnd(TrimStart(s)) == s
  {
  }

  lemma SanitizeTwice(lower: Lower, value: string)
    requires FixesAllowed(lower)
    ensures SanitizeSegment(lower, SanitizeSegment(lower, value)) == SanitizeSegment(lower, value)
  {
    SanitizedIsToolId(lower, value);
    ToolIdsAreSanitized(lower, SanitizeSegment(lower, value));
  }

  /** The letters and digits of a text, in order. */
  function Letters(s: string): string {
    if s == "" then "" else (if Alnum(s[0]) then [s[0]] else "") + Letters(s[1..])
  }

  lemma Associates(x: string, y: string, z: string)
    ensures x + (y + z) == (x + y) + z
  {
  }

  lemma {:induction false} LettersAppend(a: string, b: string)
    ensures Letters(a + b) == Letters(a) + Letters(b)
  {
    if a == "" {
      assert a + b == b;
    } else {
      var first := if Alnum(a[0]) then [a[0]] else "";
      assert (a + b)[0] == a[0] && (a + b)[1..] == a[1..] + b;
      LettersAppend(a[1..], b);
      Associates(first, Letters(a[1..]), Letters(b));
    }
  }

  lemma {:induction false} SkippedForbidden(s: string)
    ensures Letters(SkipForbidden(s)) == Letters(s)
  {
    if s != "" && !Allowed(s[0]) { SkippedForbidden(s[1..]); }
  }

  lemma {:induction false} SkippedSeparators(s: string)
    ensures Letters(SkipSeparators(s)) == Letters(s)
  {
    if s != "" && Separator(s[0]) { SkippedSeparators(s[1..]); }
  }

  lemma {:induction false} ReplacedKeepsLetters(s: string)
    ensures Letters(ReplaceForbidden(s)) == Letters(s)
    decreases |s|
  {
    if s != "" {
      if Allowed(s[0]) {
        ReplacedKeepsLetters(s[1..]);
        LettersAppend([s[0]], ReplaceForbidden(s[1..]));
      } else {
        SkippedForbidden(s[1..]);
        ReplacedKeepsLetters(SkipForbidden(s[1..]));
        LettersAppend("_", ReplaceForbidden(SkipForbidden(s[1..])));
      }
    }
  }

  lemma {:induction false} CollapsedKeepsLetters(s: string)
    ensures Letters(CollapseRuns(s)) == Letters(s)
    decreases |s|
  {
    if s != "" {
      if |s| >= 2 && Separator(s[0]) && Separator(s[1]) {
        SkippedSeparators(s);
        CollapsedKeepsLetters(SkipSeparators(s));
        LettersAppend("_", CollapseRuns(SkipSeparators(s)));
      } else {
        CollapsedKeepsLetters(s[1..]);
        LettersAppend([s[0]], CollapseRuns(s[1..]));
      }
    }
  }

  lemma {:induction false} TrimEndKeepsLetters(s: string)
    ensures Letters(TrimEnd(s)) == Letters(s)
  {
    if s != "" && Separator(s[|s| - 1]) {
      TrimEndKeepsLetters(s[..|s| - 1]);
      LettersAppend(s[..|s| - 1], [s[|s| - 1]]);
      assert s == s[..|s| - 1] + [s[|s| - 1]];
    }
  }

  /** Sanitizing loses and reorders no letter or digit of the lower-cased name; a name without any is "unnamed". */
  lemma SanitizeKeepsLetters(lower: Lower, value: string)
    ensures Letters(SanitizeSegment(lower, value))
            == if Letters(lower(value)) == "" then "unnamed" else Letters(lower(value))
  {
    var replaced := ReplaceForbidden(lower(value));
    var collapsed := CollapseRuns(replaced);
    ReplacedKeepsLetters(lower(value));
    CollapsedKeepsLetters(replaced);
    SkippedSeparators(collapsed);
    TrimEndKeepsLetters(TrimStart(collapsed));
    var sanitized := TrimEnd(TrimStart(collapsed));
    if sanitized != "" {
      CollapsedHasNoRuns(replaced);
      TrimmedIsToolId(collapsed);
    } else {
      assert Letters("") == "";
      Unnamed();
    }
  }

  lemma Unnamed()
    ensures Letters("unnamed") == "unnamed"
  {
    assert Letters("d") == "d" && Letters("ed") == "ed" && Letters("med") == "med" && Letters("amed") == "amed";
    assert Letters("named") == "named" && Letters("nnamed") == "nnamed";
  }

  /** Every id made from a server and a tool name is a tool id. */
  lemma McpToolIdsAreToolIds(lower: Lower, serverId: string, toolName: string)
    ensures IsToolId(McpToolId(lower, serverId, toolName))
  {
    SanitizedIsToolId(lower, serverId);
    SanitizedIsToolId(lower, toolName);
    ThreeSegments("mcp", SanitizeSegment(lower, serverId), SanitizeSegment(lower, toolName));
  }

  /** It survives the wire, whatever the server called itself and its tool. */
  lemma McpToolIdsSurviveTheWire(lower: Lower, serverId: string, toolName: string)
    ensures DecodeToolName(EncodeToolName(McpToolId(lower, serverId, toolName))) == McpToolId(lower, serverId, toolName)
  {
    McpToolIdsAreToolIds(lower, serverId, toolName);
    ToolIdsSurviveTheWire(McpToolId(lower, serverId, toolName));
  }

  function Joined(a: string, x: string): string { "mcp." + a + "." + x }

  /** The segments of two servers with which some tools have one id. */
  ghost predicate Meet(a: string, b: string) {
    exists x, y :: IsToolId(x) && IsToolId(y) && Joined(a, x) == Joined(b, y)
  }

  /** One segment continues the other after a dot. */
  predicate Nests(a: string, b: string) {
    a + "." <= b || b + "." <= a
  }

  lemma JoinedNest(a: string, x: string, b: string, y: string)
    requires Joined(a, x) == Joined(b, y) && |a| <= |b|
    ensures a == b || a + "." <= b
  {
    var whole := Joined(a, x);
    assert whole[4..4 + |a|] == a && whole[4 + |a|] == '.' && whole[4..4 + |b|] == b;
    if |a| < |b| { assert b[..|a| + 1] == a + "."; }
  }

  lemma NestedMeet(a: string, b: string)
    requires IsToolId(b) && a + "." <= b
    ensures Meet(a, b)
  {
    assert b[|a|] == (a + ".")[|a|] && a == (a + ".")[..|a|] == b[..|a|];
    RestIsId(b, |a|);
    var rest := b[|a| + 1..];
    OneLetter();
    JoinedIds(rest, '.', "t");
    assert Joined(a, rest + "." + "t") == Joined(b, "t");
  }

  lemma OneLetter()
    ensures IsToolId("t")
  {
    assert Alnum("t"[0]) && forall i | 0 <= i < |"t"| :: !RunsOn("t", i);
  }

  lemma MeetIffNests(a: string, b: string)
    requires IsToolId(a) && IsToolId(b) && a != b
    ensures Meet(a, b) <==> Nests(a, b)
  {
    if x, y :| IsToolId(x) && IsToolId(y) && Joined(a, x) == Joined(b, y) {
      if |a| <= |b| { JoinedNest(a, x, b, y); } else { JoinedNest(b, y, a, x); }
    }
    if a + "." <= b { NestedMeet(a, b); }
    if b + "." <= a {
      NestedMeet(b, a);
      var x, y :| IsToolId(x) && IsToolId(y) && Joined(b, x) == Joined(a, y);
    }
  }

  lemma IdIsJoined(lower: Lower, serverId: string, toolName: string)
    ensures McpToolId(lower, serverId, toolName)
            == Joined(SanitizeSegment(lower, serverId), SanitizeSegment(lower, toolName))
  {
  }

  ghost predicate ShareAnId(lower: Lower, one: string, other: string) {
    exists t, u :: McpToolId(lower, one, t) == McpToolId(lower, other, u)
  }

  lemma SharedMeans(lower: Lower, one: string, other: string)
    requires FixesAllowed(lower)
    ensures ShareAnId(lower, one, other) <==> Meet(SanitizeSegment(lower, one), SanitizeSegment(lower, other))
  {
    if t, u :| McpToolId(lower, one, t) == McpToolId(lower, other, u) {
      IdIsJoined(lower, one, t);
      IdIsJoined(lower, other, u);
      SanitizedIsToolId(lower, t);
      SanitizedIsToolId(lower, u);
    }
    var a, b := SanitizeSegment(lower, one), SanitizeSegment(lower, other);
    if x, y :| IsToolId(x) && IsToolId(y) && Joined(a, x) == Joined(b, y) {
      ToolIdsAreSanitized(lower, x);
      ToolIdsAreSanitized(lower, y);
      IdIsJoined(lower, one, x);
      IdIsJoined(lower, other, y);
    }
  }

  /** Servers are kept apart: tools of two servers with different segments can share an id if and only if one segment
      continues the other after a dot. */
  lemma NamespacesMeetIff(lower: Lower, one: string, other: string)
    requires FixesAllowed(lower) && SanitizeSegment(lower, one) != SanitizeSegment(lower, other)
    ensures ShareAnId(lower, one, other) <==> Nests(SanitizeSegment(lower, one), SanitizeSegment(lower, other))
  {
    SharedMeans(lower, one, other);
    SanitizedIsToolId(lower, one);
    SanitizedIsToolId(lower, other);
    MeetIffNests(SanitizeSegment(lower, one), SanitizeSegment(lower, other));
  }

  lemma ThreeSegments(a: string, b: string, c: string)
    requires IsToolId(a) && IsToolId(b) && IsToolId(c)
    ensures IsToolId(a + "." + b + "." + c)
  {
    JoinedIds(a, '.', b);
    JoinedIds(a + "." + b, '.', c);
  }
}
