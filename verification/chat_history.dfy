/** The conversation history a chat request carries: the turns, the filter
    that drops the widget's canned greeting, and the `role: content` context
    built from what remains. */
module ChatHistory {
  import opened Text
  import opened Sequences

  /** The greeting the chat widget opens with; it is not fed back to the model. */
  const Greeting: string := "Hi! I'm your Vital AI health assistant. How can I help you today?"

  /** One earlier turn as the client sends it: `{ role, content }`, each
      field written as the string it renders to in the context. */
  datatype Turn = Turn(role: string, content: string)

  /** An assistant turn carrying exactly the canned greeting. */
  predicate IsGreetingTurn(t: Turn) {
    t.role == "assistant" && t.content == Greeting
  }

  /** The `.filter` over the history: drops the greeting turns, keeping the
      others in order (see `DropGreetingKeeps` and `DropGreetingOrder`). */
  function DropGreeting(turns: seq<Turn>): (kept: seq<Turn>)
    ensures |kept| <= |turns|
    ensures forall i :: 0 <= i < |kept| ==> !IsGreetingTurn(kept[i])
  {
    if turns == [] then []
    else if IsGreetingTurn(turns[0]) then DropGreeting(turns[1..])
    else [turns[0]] + DropGreeting(turns[1..])
  }

  /** Exactly the greeting turns are removed: a turn is kept if and only if it
      occurs in the history and is not the greeting. */
  lemma {:induction false} DropGreetingKeeps(turns: seq<Turn>)
    ensures forall t :: t in DropGreeting(turns) <==> t in turns && !IsGreetingTurn(t)
  {
    if turns != [] {
      DropGreetingKeeps(turns[1..]);
      assert turns == [turns[0]] + turns[1..];
    }
  }

  /** The kept turns are in their original order. */
  lemma {:induction false} DropGreetingOrder(turns: seq<Turn>)
    ensures IsSubsequence(DropGreeting(turns), turns)
  {
    if turns != [] {
      DropGreetingOrder(turns[1..]);
      var rest := DropGreeting(turns[1..]);
      if IsGreetingTurn(turns[0]) {
        SubsequenceOfTail(rest, turns);
      } else {
        assert ([turns[0]] + rest)[1..] == rest;
      }
    }
  }

  /** Filtering distributes over concatenation of histories. */
  lemma {:induction false} DropGreetingAppend(a: seq<Turn>, b: seq<Turn>)
    ensures DropGreeting(a + b) == DropGreeting(a) + DropGreeting(b)
  {
    if a == [] {
      assert a + b == b;
    } else {
      var ab := a + b;
      assert ab[0] == a[0] && ab[1..] == a[1..] + b;
      DropGreetingAppend(a[1..], b);
      if !IsGreetingTurn(a[0]) {
        assert [a[0]] + DropGreeting(a[1..]) + DropGreeting(b) == [a[0]] + (DropGreeting(a[1..]) + DropGreeting(b));
      }
    }
  }

  /** A turn that is not the greeting survives at the end of the history. */
  lemma DropGreetingSnoc(turns: seq<Turn>, t: Turn)
    requires !IsGreetingTurn(t)
    ensures DropGreeting(turns + [t]) == DropGreeting(turns) + [t]
  {
    DropGreetingAppend(turns, [t]);
    assert [t][1..] == [];
  }

  /** A history of greetings only is filtered away entirely. */
  lemma {:induction false} DropOnlyGreetings(turns: seq<Turn>)
    requires forall i :: 0 <= i < |turns| ==> IsGreetingTurn(turns[i])
    ensures DropGreeting(turns) == []
  {
    if turns != [] {
      DropOnlyGreetings(turns[1..]);
    }
  }

  /** One turn as a line of the context: `role: content`, content untrimmed. */
  function Render(t: Turn): string {
    t.role + ": " + t.content
  }

  function RenderAll(turns: seq<Turn>): (lines: seq<string>)
    ensures |lines| == |turns|
    ensures forall i :: 0 <= i < |turns| ==> lines[i] == Render(turns[i])
  {
    seq(|turns|, i requires 0 <= i < |turns| => Render(turns[i]))
  }

  /** The conversation context: the kept turns as lines joined by newlines.
      It is empty exactly when no turn is kept. */
  function Context(kept: seq<Turn>): (ctx: string)
    ensures ctx == [] <==> kept == []
  {
    var lines := RenderAll(kept);
    assert kept != [] ==> |lines[0]| > 0;
    Join(lines, "\n")
  }

  lemma ExampleHistoryKept()
    ensures DropGreeting([Turn("assistant", Greeting), Turn("user", "A"), Turn("assistant", "B")])
         == [Turn("user", "A"), Turn("assistant", "B")]
  {
    var a, b := Turn("user", "A"), Turn("assistant", "B");
    var turns := [Turn("assistant", Greeting), a, b];
    assert turns[1..] == [a, b] && [a, b][1..] == [b] && [b][1..] == [];
    assert !IsGreetingTurn(a) && !IsGreetingTurn(b);
    assert DropGreeting([b]) == [b];
    assert DropGreeting([a, b]) == [a, b];
  }

  lemma ExampleContext()
    ensures Context([Turn("user", "A"), Turn("assistant", "B")]) == "user: A\nassistant: B"
  {
    var a, b := Turn("user", "A"), Turn("assistant", "B");
    assert Render(a) == "user: A" && Render(b) == "assistant: B";
    var lines := RenderAll([a, b]);
    assert lines == ["user: A", "assistant: B"];
    assert lines[1..] == ["assistant: B"];
    assert Join(lines, "\n") == "user: A" + "\n" + "assistant: B";
  }

  /** The line of a turn appended to the kept turns ends the context. */
  lemma ContextSnoc(kept: seq<Turn>, t: Turn)
    ensures Context(kept + [t]) == if kept == [] then Render(t) else Context(kept) + "\n" + Render(t)
  {
    assert RenderAll(kept + [t]) == RenderAll(kept) + [Render(t)];
    JoinSnoc(RenderAll(kept), Render(t), "\n");
  }
}
