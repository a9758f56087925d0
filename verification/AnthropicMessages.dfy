/** Chat messages as the Anthropic wire format groups them: alternating turns of blocks. */
module AnthropicMessages {
  import opened Wrappers
  import opened ToolNames

  datatype Role = System | Developer | User | Assistant | Tool

  datatype ChatMessage = ChatMessage(role: Role, text: string, toolName: string, toolCallId: Option<string>,
      arguments: Option<string>)

  datatype Turn = UserTurn | AssistantTurn

  datatype Block = ToolResult(id: string, content: string) | ToolUse(id: string, name: string, input: string)
      | Text(text: string)

  datatype AnthropicMessage = AnthropicMessage(role: Turn, content: seq<Block>)

  predicate IsSystem(m: ChatMessage) {
    m.role.System? || m.role.Developer?
  }

  function CallId(m: ChatMessage): string {
    if m.toolCallId.Some? then m.toolCallId.value else "unknown"
  }

  function TurnOf(m: ChatMessage): Turn {
    if m.role.Assistant? then AssistantTurn else UserTurn
  }

  function BlockOf(m: ChatMessage): Block {
    if m.role.Tool? then ToolResult(CallId(m), m.text)
    else if m.role.Assistant? && m.toolName != "" then
      ToolUse(CallId(m), EncodeToolName(m.toolName), if m.arguments.Some? then m.arguments.value else "{}")
    else Text(m.text)
  }

  /** One block a message, in order, each with the turn it belongs to. */
  function Blocks(messages: seq<ChatMessage>): seq<(Turn, Block)> {
    if messages == [] then []
    else
      var rest, last := Blocks(messages[..|messages| - 1]), messages[|messages| - 1];
      if IsSystem(last) then rest else rest + [(TurnOf(last), BlockOf(last))]
  }

  function Tagged(turn: Turn, content: seq<Block>): seq<(Turn, Block)> {
    if content == [] then [] else [(turn, content[0])] + Tagged(turn, content[1..])
  }

  function Flatten(out: seq<AnthropicMessage>): seq<(Turn, Block)> {
    if out == [] then [] else Tagged(out[0].role, out[0].content) + Flatten(out[1..])
  }

  /** No message is empty and adjacent ones are different turns. */
  predicate Alternates(out: seq<AnthropicMessage>) {
    if out == [] then true
    else out[0].content != [] && (|out| > 1 ==> out[0].role != out[1].role) && Alternates(out[1..])
  }

  function SystemParts(messages: seq<ChatMessage>): seq<string> {
    if messages == [] then []
    else
      var rest, last := SystemParts(messages[..|messages| - 1]), messages[|messages| - 1];
      if IsSystem(last) then rest + [last.text] else rest
  }

  /** A block goes onto the last message if that is the same turn, else into a new one. */
  function Append(out: seq<AnthropicMessage>, turn: Turn, block: Block): seq<AnthropicMessage> {
    if out != [] && out[|out| - 1].role == turn then
      out[|out| - 1 := AnthropicMessage(turn, out[|out| - 1].content + [block])]
    else out + [AnthropicMessage(turn, [block])]
  }

  /** How many of the first `i` messages belong to the conversation; the others are instructions. */
  function Spoken(messages: seq<ChatMessage>, i: nat): (n: nat)
    requires i <= |messages|
    ensures n <= i
  {
    if i == 0 then 0
    else Spoken(messages, i - 1)
         + match messages[i - 1].role
           case System => 0
           case Developer => 0
           case _ => 1
  }

  lemma {:induction false} SpokenPrefix(messages: seq<ChatMessage>, n: nat, i: nat)
    requires i <= n <= |messages|
    ensures Spoken(messages[..n], i) == Spoken(messages, i)
  {
    if i > 0 { SpokenPrefix(messages, n, i - 1); }
  }

  /** The turn and the block of one message of the conversation. */
  predicate Says(m: ChatMessage, turn: Turn, block: Block) {
    match m.role
    case User => turn == UserTurn && block == Text(m.text)
    case Tool =>
      && turn == UserTurn && block.ToolResult? && block.content == m.text
      && block.id == if m.toolCallId == None then "unknown" else m.toolCallId.value
    case Assistant =>
      && turn == AssistantTurn
      && if m.toolName == "" then block == Text(m.text)
         else
           && block.ToolUse? && block.name == EncodeToolName(m.toolName)
           && block.id == (if m.toolCallId == None then "unknown" else m.toolCallId.value)
           && block.input == if m.arguments == None then "{}" else m.arguments.value
    case _ => false
  }

  /** One block for each message of the conversation, at its place among them. */
  ghost predicate SaysAll(messages: seq<ChatMessage>, blocks: seq<(Turn, Block)>) {
    && |blocks| == Spoken(messages, |messages|)
    && forall i: nat | i < |messages| && !messages[i].role.System? && !messages[i].role.Developer? ::
         Spoken(messages, i) < |blocks|
         && Says(messages[i], blocks[Spoken(messages, i)].0, blocks[Spoken(messages, i)].1)
  }

  /** The texts of the instructions, each at its place among them. */
  ghost predicate Instructs(messages: seq<ChatMessage>, parts: seq<string>) {
    && |parts| == |messages| - Spoken(messages, |messages|)
    && forall i: nat | i < |messages| && (messages[i].role.System? || messages[i].role.Developer?) ::
         i - Spoken(messages, i) < |parts| && parts[i - Spoken(messages, i)] == messages[i].text
  }

  lemma {:induction false} BlocksCount(messages: seq<ChatMessage>)
    ensures |Blocks(messages)| == Spoken(messages, |messages|)
    ensures |SystemParts(messages)| == |messages| - Spoken(messages, |messages|)
  {
    if messages != [] {
      BlocksCount(messages[..|messages| - 1]);
      SpokenPrefix(messages, |messages| - 1, |messages| - 1);
    }
  }

  lemma {:induction false} BlockAt(messages: seq<ChatMessage>, i: nat)
    requires i < |messages| && !IsSystem(messages[i])
    ensures Spoken(messages, i) < |Blocks(messages)|
    ensures var said := Blocks(messages)[Spoken(messages, i)]; said == (TurnOf(messages[i]), BlockOf(messages[i]))
  {
    var n := |messages| - 1;
    BlocksCount(messages[..n]);
    SpokenPrefix(messages, n, n);
    if i < n {
      SpokenPrefix(messages, n, i);
      BlockAt(messages[..n], i);
    }
  }

  lemma {:induction false} PartAt(messages: seq<ChatMessage>, i: nat)
    requires i < |messages| && IsSystem(messages[i])
    ensures i - Spoken(messages, i) < |SystemParts(messages)|
    ensures SystemParts(messages)[i - Spoken(messages, i)] == messages[i].text
  {
    var n := |messages| - 1;
    BlocksCount(messages[..n]);
    SpokenPrefix(messages, n, n);
    if i < n {
      SpokenPrefix(messages, n, i);
      PartAt(messages[..n], i);
    }
  }

  lemma BlocksSayAll(messages: seq<ChatMessage>)
    ensures SaysAll(messages, Blocks(messages)) && Instructs(messages, SystemParts(messages))
  {
    BlocksCount(messages);
    forall i: nat | i < |messages| && !IsSystem(messages[i])
      ensures Spoken(messages, i) < |Blocks(messages)|
      ensures Says(messages[i], Blocks(messages)[Spoken(messages, i)].0, Blocks(messages)[Spoken(messages, i)].1)
    {
      BlockAt(messages, i);
    }
    forall i: nat | i < |messages| && IsSystem(messages[i])
      ensures i - Spoken(messages, i) < |SystemParts(messages)|
      ensures SystemParts(messages)[i - Spoken(messages, i)] == messages[i].text
    {
      PartAt(messages, i);
    }
  }

  method ToAnthropicMessages(messages: seq<ChatMessage>) returns (system: Option<string>, out: seq<AnthropicMessage>)
    ensures Alternates(out) && Flatten(out) == Blocks(messages)
    ensures system == if SystemParts(messages) == [] then None else Some(Join(SystemParts(messages), "\n\n"))
    ensures SaysAll(messages, Flatten(out)) && Instructs(messages, SystemParts(messages))
  {
    var systemParts: seq<string> := [];
    out := [];
    for i := 0 to |messages|
      invariant systemParts == SystemParts(messages[..i])
      invariant Alternates(out) && Flatten(out) == Blocks(messages[..i])
    {
      var message := messages[i];
      assert messages[..i + 1][..i] == messages[..i];
      if message.role.System? || message.role.Developer? {
        systemParts := systemParts + [message.text];
        continue;
      }
      AppendAlternates(out, TurnOf(message), BlockOf(message));
      if message.role.Tool? {
        out := Append(out, UserTurn, ToolResult(CallId(message), message.text));
        continue;
      }
      if message.role.Assistant? && message.toolName != "" {
        var input := if message.arguments.Some? then message.arguments.value else "{}";
        out := Append(out, AssistantTurn, ToolUse(CallId(message), EncodeToolName(message.toolName), input));
        continue;
      }
      out := Append(out, if message.role.Assistant? then AssistantTurn else UserTurn, Text(message.text));
    }
    assert messages[..|messages|] == messages;
    BlocksSayAll(messages);
    system := if |systemParts| > 0 then Some(Join(systemParts, "\n\n")) else None;
  }

  lemma {:induction false} TaggedSnoc(turn: Turn, content: seq<Block>, block: Block)
    ensures Tagged(turn, content + [block]) == Tagged(turn, content) + [(turn, block)]
  {
    if content == [] {
      assert content + [block] == [block];
    } else {
      TaggedSnoc(turn, content[1..], block);
      assert (content + [block])[1..] == content[1..] + [block];
    }
  }

  lemma {:induction false} AppendAlternates(out: seq<AnthropicMessage>, turn: Turn, block: Block)
    requires Alternates(out)
    ensures Alternates(Append(out, turn, block))
    ensures Flatten(Append(out, turn, block)) == Flatten(out) + [(turn, block)]
    ensures out != [] ==> Append(out, turn, block)[0].role == out[0].role
  {
    OneMessage(AnthropicMessage(turn, [block]));
    if out == [] {
    } else if |out| == 1 {
      AppendToOne(out[0], turn, block);
      assert out == [out[0]];
    } else {
      AppendAlternates(out[1..], turn, block);
      assert Append(out, turn, block)[1..] == Append(out[1..], turn, block);
      Associates(Tagged(out[0].role, out[0].content), Flatten(out[1..]), [(turn, block)]);
    }
  }

  lemma OneMessage(m: AnthropicMessage)
    ensures Flatten([m]) == Tagged(m.role, m.content)
    ensures Alternates([m]) <==> m.content != []
  {
    assert [m][1..] == [];
    assert Tagged(m.role, m.content) + [] == Tagged(m.role, m.content);
  }

  lemma AppendToOne(m: AnthropicMessage, turn: Turn, block: Block)
    requires m.content != []
    ensures Alternates(Append([m], turn, block))
    ensures Flatten(Append([m], turn, block)) == Flatten([m]) + [(turn, block)]
  {
    OneMessage(m);
    var more := AnthropicMessage(turn, m.content + [block]);
    var last := AnthropicMessage(turn, [block]);
    OneMessage(more);
    OneMessage(last);
    TaggedSnoc(m.role, m.content, block);
    assert Tagged(turn, [block]) == [(turn, block)];
    if m.role == turn {
      assert Append([m], turn, block) == [more];
    } else {
      assert Append([m], turn, block) == [m, last] && [m, last][1..] == [last];
    }
  }

  lemma ConsSame(x: (Turn, Block), s: seq<(Turn, Block)>, y: (Turn, Block), t: seq<(Turn, Block)>)
    requires [x] + s == [y] + t
    ensures x == y && s == t
  {
    assert ([x] + s)[0] == ([y] + t)[0];
    assert ([x] + s)[1..] == s && ([y] + t)[1..] == t;
  }

  /** The blocks after the first one: the rest of the first message, or the later messages. */
  function Rest(a: seq<AnthropicMessage>): seq<AnthropicMessage>
    requires a != [] && a[0].content != []
  {
    if |a[0].content| == 1 then a[1..] else [AnthropicMessage(a[0].role, a[0].content[1..])] + a[1..]
  }

  lemma {:induction false} FirstBlock(a: seq<AnthropicMessage>)
    requires Alternates(a) && a != []
    ensures Flatten(a) == [(a[0].role, a[0].content[0])] + Flatten(Rest(a))
    ensures Alternates(Rest(a))
  {
    var first := [(a[0].role, a[0].content[0])];
    var others, later := Tagged(a[0].role, a[0].content[1..]), Flatten(a[1..]);
    assert Tagged(a[0].role, a[0].content) == first + others;
    Associates(first, others, later);
    if |a[0].content| == 1 {
      assert others == [] && first + later == first + others + later;
    } else {
      assert Rest(a)[0].content == a[0].content[1..] && Rest(a)[1..] == a[1..];
    }
  }

  lemma Associates(x: seq<(Turn, Block)>, y: seq<(Turn, Block)>, z: seq<(Turn, Block)>)
    ensures x + y + z == x + (y + z)
  {
  }

  /** The grouping is the only one: alternating messages are determined by their blocks in order. */
  lemma {:induction false} GroupingIsUnique(a: seq<AnthropicMessage>, b: seq<AnthropicMessage>)
    requires Alternates(a) && Alternates(b) && Flatten(a) == Flatten(b)
    ensures a == b
    decreases |Flatten(a)|
  {
    if a != [] { FirstBlock(a); }
    if b != [] { FirstBlock(b); }
    if a != [] && b != [] {
      ConsSame((a[0].role, a[0].content[0]), Flatten(Rest(a)), (b[0].role, b[0].content[0]), Flatten(Rest(b)));
      GroupingIsUnique(Rest(a), Rest(b));
      SameAfterFirst(a, b);
    }
  }

  /** If the first block and everything after it agree, so does the grouping: a message that ended after its first
      block is followed by the other turn. */
  lemma {:induction false} SameAfterFirst(a: seq<AnthropicMessage>, b: seq<AnthropicMessage>)
    requires Alternates(a) && Alternates(b) && a != [] && b != [] && Rest(a) == Rest(b)
    requires a[0].role == b[0].role && a[0].content[0] == b[0].content[0]
    ensures a == b
  {
    assert a == [a[0]] + a[1..] && b == [b[0]] + b[1..];
    assert a[0].content == [a[0].content[0]] + a[0].content[1..]
        && b[0].content == [b[0].content[0]] + b[0].content[1..];
    var long, short := if |a[0].content| > 1 then a else b, if |a[0].content| > 1 then b else a;
    if |long[0].content| > 1 {
      assert Rest(long)[0].role == long[0].role && Rest(long)[0].content == long[0].content[1..]
          && Rest(long)[1..] == long[1..];
      if |short[0].content| == 1 { assert false; }
      assert Rest(short)[0].content == short[0].content[1..] && Rest(short)[1..] == short[1..];
    }
  }
}
