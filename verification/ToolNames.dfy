/** Tool ids on the wire: dots travel as double underscores. */
module ToolNames {
  import opened ToolIds

  function Split(s: string, separator: string): (parts: seq<string>)
    requires separator != ""
    ensures parts != []
    decreases |s|
  {
    if |s| < |separator| then [s]
    else if s[..|separator|] == separator then [""] + Split(s[|separator|..], separator)
    else
      var parts := Split(s[1..], separator);
      [[s[0]] + parts[0]] + parts[1..]
  }

  function Join(parts: seq<string>, separator: string): string
    requires parts != []
  {
    if |parts| == 1 then parts[0] else parts[0] + separator + Join(parts[1..], separator)
  }

  function EncodeToolName(toolId: string): string {
    Join(Split(toolId, "."), "__")
  }

  function DecodeToolName(wireName: string): string {
    Join(Split(wireName, "__"), ".")
  }

  /** Splitting and joining works through the text from left to right. */
  lemma Replaced(s: string, separator: string, replacement: string)
    requires separator != ""
    ensures |s| < |separator| ==> Join(Split(s, separator), replacement) == s
    ensures |s| >= |separator| && s[..|separator|] == separator ==>
              Join(Split(s, separator), replacement) == replacement
                  + Join(Split(s[|separator|..], separator), replacement)
    ensures |s| >= |separator| && s[..|separator|] != separator ==>
              Join(Split(s, separator), replacement) == [s[0]] + Join(Split(s[1..], separator), replacement)
  {
    if |s| >= |separator| {
      if s[..|separator|] == separator {
        var parts := Split(s[|separator|..], separator);
        assert ([""] + parts)[1..] == parts;
      } else {
        JoinAfter(s[0], Split(s[1..], separator), replacement);
      }
    }
  }

  lemma JoinAfter(c: char, parts: seq<string>, replacement: string)
    requires parts != []
    ensures Join([[c] + parts[0]] + parts[1..], replacement) == [c] + Join(parts, replacement)
  {
    var longer := [[c] + parts[0]] + parts[1..];
    assert longer[1..] == parts[1..];
    if |parts| > 1 {
      assert [c] + parts[0] + replacement + Join(parts[1..], replacement)
          == [c] + (parts[0] + replacement + Join(parts[1..], replacement));
    }
  }

  lemma Encoded(s: string)
    requires s != ""
    ensures EncodeToolName(s) == (if s[0] == '.' then "__" else [s[0]]) + EncodeToolName(s[1..])
  {
    Replaced(s, ".", "__");
    assert s[..1] == "." <==> s[0] == '.';
  }

  lemma Decoded(w: string)
    requires w != ""
    ensures |w| >= 2 && w[0] == '_' && w[1] == '_' ==> DecodeToolName(w) == "." + DecodeToolName(w[2..])
    ensures !(|w| >= 2 && w[0] == '_' && w[1] == '_') ==> DecodeToolName(w) == [w[0]] + DecodeToolName(w[1..])
  {
    Replaced(w, "__", ".");
    if |w| >= 2 {
      assert w[..2] == [w[0], w[1]];
    } else {
      Replaced(w[1..], "__", ".");
      assert w == [w[0]] + w[1..];
    }
  }

  /** An underscore followed by an underscore or a dot. */
  predicate Ambiguous(s: string) {
    exists i :: 0 <= i < |s| - 1 && s[i] == '_' && (s[i + 1] == '_' || s[i + 1] == '.')
  }

  /** Over all texts, decoding undoes encoding exactly when no underscore is followed by an underscore or a dot. */
  lemma {:induction false} RoundTripExactly(s: string)
    ensures DecodeToolName(EncodeToolName(s)) == s <==> !Ambiguous(s)
  {
    if s == "" {
      assert EncodeToolName(s) == "" && DecodeToolName("") == "";
    } else {
      var rest := s[1..];
      var wire := EncodeToolName(rest);
      Encoded(s);
      RoundTripExactly(rest);
      AmbiguousCons(s);
      if rest != "" { Encoded(rest); }
      if s[0] == '.' {
        assert ("__" + wire)[2..] == wire;
        Decoded("__" + wire);
      } else {
        Decoded([s[0]] + wire);
        assert ([s[0]] + wire)[1..] == wire;
        assert rest == "" ==> wire == "";
      }
      assert s == [s[0]] + rest;
    }
  }

  lemma AmbiguousCons(s: string)
    requires s != ""
    ensures Ambiguous(s) <==> (|s| >= 2 && s[0] == '_' && (s[1] == '_' || s[1] == '.')) || Ambiguous(s[1..])
  {
    var rest := s[1..];
    if Ambiguous(rest) {
      var i :| 0 <= i < |rest| - 1 && rest[i] == '_' && (rest[i + 1] == '_' || rest[i + 1] == '.');
      assert s[i + 1] == '_' && s[i + 2] == rest[i + 1];
    }
    if Ambiguous(s) {
      var i :| 0 <= i < |s| - 1 && s[i] == '_' && (s[i + 1] == '_' || s[i + 1] == '.');
      if i > 0 { assert rest[i - 1] == '_' && rest[i] == s[i + 1]; }
    }
  }

  /** Every tool id survives the wire. */
  lemma ToolIdsSurviveTheWire(id: string)
    requires IsToolId(id)
    ensures DecodeToolName(EncodeToolName(id)) == id
  {
    if Ambiguous(id) {
      var i :| 0 <= i < |id| - 1 && id[i] == '_' && (id[i + 1] == '_' || id[i + 1] == '.');
      assert RunsOn(id, i);
    }
    RoundTripExactly(id);
  }

  predicate WireChar(c: char) {
    Alnum(c) || 'A' <= c <= 'Z' || c == '_' || c == '-'
  }

  /** An encoded tool id uses only characters that provider wire formats accept. */
  lemma {:induction false} EncodedAlphabet(s: string)
    requires AllAllowed(s)
    ensures forall i | 0 <= i < |EncodeToolName(s)| :: WireChar(EncodeToolName(s)[i])
  {
    if s == "" {
      assert EncodeToolName(s) == "";
    } else {
      Encoded(s);
      EncodedAlphabet(s[1..]);
    }
  }

  /** Distinct tool ids have distinct wire names. */
  lemma WireNamesAreDistinct(a: string, b: string)
    requires IsToolId(a) && IsToolId(b) && EncodeToolName(a) == EncodeToolName(b)
    ensures a == b
  {
    ToolIdsSurviveTheWire(a);
    ToolIdsSurviveTheWire(b);
  }
}
