/** `build_messages`: the chat request sent to the generator, made of the shared
    system prefix, the style prompt, the usable few-shot examples as
    user/assistant pairs, and the user's text. */
module Prompt {
  import opened Base
  import opened PyStr
  import opened Styles

  datatype Role = System | User | Assistant

  /** One `{"role": ..., "content": ...}` entry of the request. */
  datatype Message = Message(role: Role, content: string)

  /** The stripped `thought` and `line` of an example, a missing key reading as "". */
  function Thought(e: Example): string { Strip(e.thought.GetOr([])) }

  function Line(e: Example): string { Strip(e.line.GetOr([])) }

  /** An example reaches the request only when both sides have text once stripped. */
  predicate Keeps(e: Example) {
    Thought(e) != [] && Line(e) != []
  }

  /** The (thought, line) pairs of the examples that reach the request, in
      example order. Every side has text and no surrounding whitespace. */
  function KeptPairs(exs: seq<Example>): (pairs: seq<(string, string)>)
    ensures |pairs| <= |exs|
    ensures forall i :: 0 <= i < |pairs| ==>
      pairs[i].0 != [] && Stripped(pairs[i].0) && pairs[i].1 != [] && Stripped(pairs[i].1)
    ensures forall e :: e in exs && Keeps(e) ==> (Thought(e), Line(e)) in pairs
  {
    if exs == [] then []
    else (if Keeps(exs[0]) then [(Thought(exs[0]), Line(exs[0]))] else []) + KeptPairs(exs[1..])
  }

  /** Each pair as a user turn followed by an assistant turn, in order. */
  function Turns(pairs: seq<(string, string)>): (msgs: seq<Message>)
    ensures |msgs| == 2 * |pairs|
  {
    if pairs == [] then []
    else [Message(User, pairs[0].0), Message(Assistant, pairs[0].1)] + Turns(pairs[1..])
  }

  /** Turn `2i` holds the thought and turn `2i + 1` the line of pair `i`. */
  lemma {:induction false} TurnsAt(pairs: seq<(string, string)>, i: nat)
    requires i < |pairs|
    ensures Turns(pairs)[2 * i] == Message(User, pairs[i].0)
    ensures Turns(pairs)[2 * i + 1] == Message(Assistant, pairs[i].1)
  {
    if i > 0 {
      TurnsAt(pairs[1..], i - 1);
    }
  }

  /** In the turns of kept pairs, even positions are user turns and odd ones
      assistant turns, each with stripped, non-empty text. */
  lemma KeptTurnAt(pairs: seq<(string, string)>, j: nat)
    requires forall i :: 0 <= i < |pairs| ==>
      pairs[i].0 != [] && Stripped(pairs[i].0) && pairs[i].1 != [] && Stripped(pairs[i].1)
    requires j < |Turns(pairs)|
    ensures Turns(pairs)[j].role == (if j % 2 == 0 then User else Assistant)
    ensures Turns(pairs)[j].content != [] && Stripped(Turns(pairs)[j].content)
  {
    var k := j / 2;
    TurnsAt(pairs, k);
    if j % 2 == 0 {
      assert j == 2 * k;
    } else {
      assert j == 2 * k + 1;
    }
  }

  lemma {:induction false} TurnsAppend(p: seq<(string, string)>, q: seq<(string, string)>)
    ensures Turns(p + q) == Turns(p) + Turns(q)
  {
    if p == [] {
      assert p + q == q;
    } else {
      assert (p + q)[0] == p[0];
      assert (p + q)[1..] == p[1..] + q;
      TurnsAppend(p[1..], q);
    }
  }

  lemma {:induction false} KeptPairsAppend(a: seq<Example>, b: seq<Example>)
    ensures KeptPairs(a + b) == KeptPairs(a) + KeptPairs(b)
  {
    if a == [] {
      assert a + b == b;
    } else {
      assert (a + b)[0] == a[0];
      assert (a + b)[1..] == a[1..] + b;
      KeptPairsAppend(a[1..], b);
    }
  }

  /** The few-shot section the loop over the examples appends, in one pass:
      it is the kept pairs, in example order, each as a user turn followed by
      an assistant turn. */
  function FewShots(exs: seq<Example>): (msgs: seq<Message>)
    ensures msgs == Turns(KeptPairs(exs))
  {
    if exs == [] then []
    else
      var t, l := Thought(exs[0]), Line(exs[0]);
      var head := if t != [] && l != [] then [Message(User, t), Message(Assistant, l)] else [];
      var kept := if Keeps(exs[0]) then [(t, l)] else [];
      assert KeptPairs(exs) == kept + KeptPairs(exs[1..]);
      TurnsAppend(kept, KeptPairs(exs[1..]));
      assert Turns(kept) == head;
      head + FewShots(exs[1..])
  }

  /** The few-shot section of consecutive example lists is the concatenation of
      their sections. */
  lemma FewShotsAppend(a: seq<Example>, b: seq<Example>)
    ensures FewShots(a + b) == FewShots(a) + FewShots(b)
  {
    KeptPairsAppend(a, b);
    TurnsAppend(KeptPairs(a), KeptPairs(b));
  }

  /** An example with an empty side, wherever it stands, adds nothing to the
      request. */
  lemma FewShotsSkipsEmpty(a: seq<Example>, e: Example, b: seq<Example>)
    requires !Keeps(e)
    ensures FewShots(a + [e] + b) == FewShots(a + b)
  {
    KeptPairsAppend(a + [e], b);
    KeptPairsAppend(a, [e]);
    KeptPairsAppend(a, b);
    assert [e][1..] == [];
    assert KeptPairs([e]) == [];
    assert KeptPairs(a) + [] == KeptPairs(a);
  }

  /** An example with text on both sides, wherever it stands, adds its
      stripped thought as a user turn and its stripped line as an assistant
      turn, between the turns of the examples before and after it. */
  lemma FewShotsKeeps(a: seq<Example>, e: Example, b: seq<Example>)
    requires Keeps(e)
    ensures FewShots(a + [e] + b) ==
      FewShots(a) + [Message(User, Thought(e)), Message(Assistant, Line(e))] + FewShots(b)
  {
    var pa, pe, pb := KeptPairs(a), KeptPairs([e]), KeptPairs(b);
    KeptPairsAppend(a + [e], b);
    KeptPairsAppend(a, [e]);
    assert KeptPairs(a + [e] + b) == pa + pe + pb;
    TurnsAppend(pa + pe, pb);
    TurnsAppend(pa, pe);
    KeptOne(e);
  }

  /** A single example with text on both sides gives one user turn and one
      assistant turn. */
  lemma KeptOne(e: Example)
    requires Keeps(e)
    ensures Turns(KeptPairs([e])) == [Message(User, Thought(e)), Message(Assistant, Line(e))]
  {
    var pair: (string, string) := (Thought(e), Line(e));
    assert [e][1..] == [];
    assert KeptPairs([e]) == [pair] + [];
    var noPairs: seq<(string, string)> := [];
    assert [pair][1..] == noPairs;
    assert Turns([pair]) == [Message(User, pair.0), Message(Assistant, pair.1)] + [];
  }

  /** `build_messages`: reads `_meta.system_prefix` then the style entry, either
      of which may raise, and assembles system prefix, style prompt, few-shot
      pairs and the stripped user text. */
  function BuildMessages(c: Catalog, style: string, userText: string): (r: Result<seq<Message>, LookupError>)
    ensures r.Ok? <==> SystemPrefix(c).Ok? && style in c.blocks
    ensures SystemPrefix(c).Err? ==> r == Err(SystemPrefix(c).error)
    ensures SystemPrefix(c).Ok? && style !in c.blocks ==> r == Err(KeyError(style))
    ensures r.Ok? ==>
      var block := GetStyleBlock(c, style).value;
      var m := r.value;
      && |m| == 3 + 2 * |KeptPairs(block.examples)|
      && m[0] == Message(System, SystemPrefix(c).value)
      && m[1] == Message(System, block.prompt)
      && m[2..|m| - 1] == FewShots(block.examples)
      && m[|m| - 1] == Message(User, Strip(userText))
  {
    match SystemPrefix(c)
    case Err(e) => Err(e)
    case Ok(prefix) =>
      match GetStyleBlock(c, style)
      case Err(e) => Err(e)
      case Ok(block) =>
        var m := [Message(System, prefix), Message(System, block.prompt)]
          + FewShots(block.examples) + [Message(User, Strip(userText))];
        assert m[2..|m| - 1] == FewShots(block.examples);
        Ok(m)
  }

  /** Between the two system turns and the final user turn the request
      alternates user and assistant turns, each with stripped, non-empty text. */
  lemma BuildMessagesFewShotTurns(c: Catalog, style: string, userText: string, i: nat)
    requires BuildMessages(c, style, userText).Ok?
    requires 2 <= i < |BuildMessages(c, style, userText).value| - 1
    ensures var m := BuildMessages(c, style, userText).value;
      && m[i].role == (if i % 2 == 0 then User else Assistant)
      && m[i].content != [] && Stripped(m[i].content)
  {
    var m := BuildMessages(c, style, userText).value;
    var exs := GetStyleBlock(c, style).value.examples;
    InnerAt(m, FewShots(exs), i);
    KeptTurnAt(KeptPairs(exs), i - 2);
  }

  lemma InnerAt(m: seq<Message>, inner: seq<Message>, i: nat)
    requires 2 <= i < |m| - 1 && m[2..|m| - 1] == inner
    ensures m[i] == inner[i - 2] && (i - 2) % 2 == i % 2
  {
  }

  /** When every example of the style has text on both sides, the request has
      two turns per example plus three. */
  lemma BuildMessagesAllKept(c: Catalog, style: string, userText: string)
    requires BuildMessages(c, style, userText).Ok?
    requires forall e :: e in GetStyleBlock(c, style).value.examples ==> Keeps(e)
    ensures |BuildMessages(c, style, userText).value| == 3 + 2 * |GetStyleBlock(c, style).value.examples|
  {
    KeptPairsAll(GetStyleBlock(c, style).value.examples);
  }

  lemma {:induction false} KeptPairsAll(exs: seq<Example>)
    requires forall e :: e in exs ==> Keeps(e)
    ensures |KeptPairs(exs)| == |exs|
  {
    if exs != [] {
      assert exs[0] in exs;
      assert forall e :: e in exs[1..] ==> e in exs;
      KeptPairsAll(exs[1..]);
    }
  }
}
