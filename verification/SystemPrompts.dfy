/** What the system messages of a conversation say, and the one prompt that says it all. */
module SystemPrompts {
  import opened Wrappers
  import opened Joining
  import opened Conversation

  /** The texts of a message's parts, run together. */
  function TextOf(parts: seq<ContentPart>): string {
    if parts == [] then ""
    else (if parts[0].Text? then parts[0].text else "") + TextOf(parts[1..])
  }

  function PromptIn(message: Message): seq<string> {
    if message.role == System then [TextOf(message.content)] else []
  }

  /** What each system message says, in order. */
  function Prompts(messages: seq<Message>): seq<string> {
    if messages == [] then []
    else Prompts(messages[..|messages| - 1]) + PromptIn(messages[|messages| - 1])
  }

  /** Texts in order with one blank line between neighbours. */
  function Spaced(texts: seq<string>): string
    requires texts != []
  {
    texts[0] + Concatenated(seq(|texts| - 1, i requires 0 <= i < |texts| - 1 => "\n\n" + texts[i + 1]))
  }

  /** The prompt a conversation is sent with, if it has a system message at all. */
  function Prompt(messages: seq<Message>): Option<string> {
    if Prompts(messages) == [] then None else Some(Spaced(Prompts(messages)))
  }

  lemma {:induction false} TextOfJoin(a: seq<ContentPart>, b: seq<ContentPart>)
    ensures TextOf(a + b) == TextOf(a) + TextOf(b)
  {
    if a == [] {
      assert a + b == b;
    } else {
      assert (a + b)[0] == a[0] && (a + b)[1..] == a[1..] + b;
      TextOfJoin(a[1..], b);
      JoinAssociates(if a[0].Text? then a[0].text else "", TextOf(a[1..]), TextOf(b));
    }
  }

  lemma {:induction false} NoPromptExactlyWhen(messages: seq<Message>)
    ensures Prompts(messages) == [] <==> forall m | m in messages :: m.role != System
  {
    if messages != [] {
      var front, last := messages[..|messages| - 1], messages[|messages| - 1];
      NoPromptExactlyWhen(front);
      assert forall m :: m in messages <==> m in front || m == last;
    }
  }

  lemma SpacedFirst(first: string, rest: seq<string>)
    requires rest != []
    ensures Spaced([first] + rest) == first + "\n\n" + Spaced(rest)
  {
    var texts := [first] + rest;
    var gaps := seq(|texts| - 1, i requires 0 <= i < |texts| - 1 => "\n\n" + texts[i + 1]);
    var later := seq(|rest| - 1, i requires 0 <= i < |rest| - 1 => "\n\n" + rest[i + 1]);
    assert gaps[0] == "\n\n" + rest[0] && gaps[1..] == later;
    JoinAssociates("\n\n", rest[0], Concatenated(later));
    JoinAssociates(first, "\n\n", Spaced(rest));
  }

  lemma SpacedOne(text: string)
    ensures Spaced([text]) == text
  {
    assert text + [] == text;
  }

  /** Two stretches of system messages are joined as any two neighbours are. */
  lemma {:induction false} SpacedJoin(a: seq<string>, b: seq<string>)
    requires a != [] && b != []
    ensures Spaced(a + b) == Spaced(a) + "\n\n" + Spaced(b)
  {
    if |a| == 1 {
      SpacedOne(a[0]);
      assert a == [a[0]];
      SpacedFirst(a[0], b);
    } else {
      var rest := a[1..];
      assert a == [a[0]] + rest && a + b == [a[0]] + (rest + b);
      SpacedJoin(rest, b);
      SpacedFirst(a[0], rest);
      SpacedFirst(a[0], rest + b);
      JoinAssociates(a[0] + "\n\n", Spaced(rest), "\n\n");
      JoinAssociates(a[0] + "\n\n", Spaced(rest) + "\n\n", Spaced(b));
    }
  }
}
