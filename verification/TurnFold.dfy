/** Folding the event stream of one agent turn into its result and its streamed text. */
module TurnFold {
  import opened Wrappers
  import opened Text

  datatype Block = Block(kind: Option<string>, name: string, id: string, text: string, toolUseId: string, isError: bool)

  datatype Msg =
    | Delta(text: string)
    | MessageDelta(reason: string)
    | User(blocks: seq<Block>)
    | Assistant(content: seq<Block>, error: string)
    | Result(text: string, isError: bool, label_: string)
    | Other

  datatype Call = Call(id: string, name: string)
  datatype Stamped = Stamped(call: Call, ok: bool)

  datatype TurnResult = TurnResult(
    text: string, isError: bool, error: Option<string>, toolsUsed: seq<string>, toolCalls: seq<Stamped>)

  const TOOL_USE := "tool_use"

  // --- reading one message --------------------------------------------------------------

  /** `_extract_text_delta`: an empty text is no delta. */
  predicate IsDelta(m: Msg) {
    m.Delta? && m.text != ""
  }

  /** `_stop_reason`: an empty reason is none. */
  predicate IsStop(m: Msg) {
    m.MessageDelta? && m.reason != ""
  }

  predicate IsCall(b: Block) {
    b.name != "" && (b.kind == Some(TOOL_USE) || b.kind == None) && b.text == ""
  }

  /** `_tool_calls` */
  function ToolCalls(blocks: seq<Block>): seq<Call> {
    if blocks == [] then []
    else (if IsCall(blocks[0]) then [Call(blocks[0].id, blocks[0].name)] else []) + ToolCalls(blocks[1..])
  }

  /** `_tool_results`, in order: a later entry for an id wins. */
  function ToolResults(blocks: seq<Block>): seq<(string, bool)> {
    if blocks == [] then []
    else (if blocks[0].toolUseId != "" then [(blocks[0].toolUseId, blocks[0].isError)] else []) + ToolResults(blocks[1..])
  }

  /** `_assistant_text` */
  function AssistantText(blocks: seq<Block>): string {
    if blocks == [] then "" else blocks[0].text + AssistantText(blocks[1..])
  }

  // --- the fold ------------------------------------------------------------------------------

  datatype Fold = Fold(
    streamed: bool, parts: seq<string>, pending: seq<string>, sent: seq<string>, calls: seq<Call>,
    toolErrors: map<string, bool>, error: Option<string>, isError: bool, result: string)

  const START := Fold(false, [], [], [], [], map[], None, false, "")

  function Update(m: map<string, bool>, results: seq<(string, bool)>): map<string, bool> {
    if results == [] then m else Update(m, results[..|results| - 1])[results[|results| - 1].0 := results[|results| - 1].1]
  }

  function Flush(s: Fold, listens: bool): Fold {
    s.(sent := s.sent + (if listens then s.pending else []), pending := [])
  }

  function Step(s: Fold, m: Msg, listens: bool): Fold {
    if IsDelta(m) then s.(streamed := true, parts := s.parts + [m.text], pending := s.pending + [m.text])
    else if IsStop(m) then if m.reason == TOOL_USE then s.(pending := []) else Flush(s, listens)
    else
      match m
      case User(blocks) => s.(toolErrors := Update(s.toolErrors, ToolResults(blocks)))
      case Assistant(content, error) =>
        var t := s.(calls := s.calls + ToolCalls(content));
        if error != "" then t.(error := Some(error))
        else
          var text := AssistantText(content);
          if s.streamed || text == "" then t
          else t.(parts := s.parts + [text], sent := s.sent + if listens then [text] else [])
      case Result(text, isError, label_) =>
        s.(isError := isError, result := text, error := if isError && s.error.None? then Some(label_) else s.error)
      case _ => s
  }

  function FoldFrom(s: Fold, msgs: seq<Msg>, listens: bool): Fold
    decreases msgs
  {
    if msgs == [] then Flush(s, listens) else FoldFrom(Step(s, msgs[0], listens), msgs[1..], listens)
  }

  function Ok(toolErrors: map<string, bool>, id: string): bool {
    id in toolErrors && !toolErrors[id]
  }

  function Stamp(calls: seq<Call>, toolErrors: map<string, bool>): (r: seq<Stamped>)
    ensures |r| == |calls|
  {
    seq(|calls|, i requires 0 <= i < |calls| => Stamped(calls[i], Ok(toolErrors, calls[i].id)))
  }

  /** The names in the order of their first use. */
  function FirstSeen(calls: seq<Call>): seq<string> {
    if calls == [] then []
    else
      var n := |calls| - 1;
      var before := FirstSeen(calls[..n]);
      if calls[n].name in before then before else before + [calls[n].name]
  }

  function Outcome(s: Fold): TurnResult {
    TurnResult(
      if Strip(s.result) != "" then Strip(s.result) else Strip(Concat(s.parts)),
      s.isError, if s.isError then s.error else None, FirstSeen(s.calls), Stamp(s.calls, s.toolErrors))
  }

  /** `AgentSession.run` from the first event on; `sent` is what reached `on_delta`. */
  method Run(msgs: seq<Msg>, listens: bool) returns (r: TurnResult, sent: seq<string>)
    ensures var s := FoldFrom(START, msgs, listens); r == Outcome(s) && sent == s.sent
  {
    var streamed, isError := false, false;
    var parts: seq<string>, pending: seq<string>, calls: seq<Call> := [], [], [];
    var toolErrors: map<string, bool> := map[];
    var error: Option<string> := None;
    var result := "";
    sent := [];
    ghost var end := FoldFrom(START, msgs, listens);
    for i := 0 to |msgs|
      invariant end ==
                FoldFrom(Fold(streamed, parts, pending, sent, calls, toolErrors, error, isError, result), msgs[i..], listens)
    {
      var m := msgs[i];
      assert msgs[i..][1..] == msgs[i + 1..];
      if IsDelta(m) {
        streamed := true;
        parts := parts + [m.text];
        pending := pending + [m.text];
        continue;
      }
      if IsStop(m) {
        if m.reason != TOOL_USE {
          sent := sent + if listens then pending else [];
        }
        pending := [];
        continue;
      }
      match m
      case User(blocks) =>
        toolErrors := Update(toolErrors, ToolResults(blocks));
      case Assistant(content, failure) =>
        calls := calls + ToolCalls(content);
        if failure != "" {
          error := Some(failure);
          continue;
        }
        if !streamed {
          var text := AssistantText(content);
          if text != "" {
            parts := parts + [text];
            if listens {
              sent := sent + [text];
            } else {
              assert sent + [] == sent;
            }
          }
        }
      case Result(text, failed, label_) =>
        isError := failed;
        result := text;
        if isError && error.None? {
          error := Some(label_);
        }
      case _ =>
    }
    sent := sent + if listens then pending else [];
    pending := [];
    var text := Strip(result);
    if text == "" {
      text := Strip(Concat(parts));
    }
    var toolsUsed := Deduplicate(calls);
    r := TurnResult(text, isError, if isError then error else None, toolsUsed, Stamp(calls, toolErrors));
  }

  /** The `seen` set of the comprehension. */
  method Deduplicate(calls: seq<Call>) returns (used: seq<string>)
    ensures used == FirstSeen(calls)
  {
    var seen: set<string> := {};
    used := [];
    for i := 0 to |calls|
      invariant used == FirstSeen(calls[..i])
      invariant forall n :: n in seen <==> n in used
    {
      assert calls[..i + 1][..i] == calls[..i];
      if calls[i].name !in seen {
        seen := seen + {calls[i].name};
        used := used + [calls[i].name];
      }
    }
    assert calls[..|calls|] == calls;
  }

  // --- what is streamed --------------------------------------------------------------------------

  /** The model message in progress turns out to be narration: its stop reason is a tool call. */
  predicate Narrates(rest: seq<Msg>) {
    rest != [] && if IsStop(rest[0]) then rest[0].reason == TOOL_USE else Narrates(rest[1..])
  }

  /**
   The answer: the deltas, in order, whose message did not stop for a tool. Before the first delta a
   whole assistant message stands in, unless it reports an error.
   */
  function Answer(msgs: seq<Msg>, streamed: bool): seq<string> {
    if msgs == [] then []
    else if IsDelta(msgs[0]) then (if Narrates(msgs[1..]) then [] else [msgs[0].text]) + Answer(msgs[1..], true)
    else
      (if msgs[0].Assistant? && msgs[0].error == "" && !streamed && AssistantText(msgs[0].content) != "" then
         [AssistantText(msgs[0].content)]
       else [])
      + Answer(msgs[1..], streamed)
  }

  lemma {:induction false} FoldSends(s: Fold, msgs: seq<Msg>)
    requires !s.streamed ==> s.pending == []
    ensures FoldFrom(s, msgs, true).sent ==
              s.sent + (if Narrates(msgs) then [] else s.pending) + Answer(msgs, s.streamed)
    decreases msgs
  {
    if msgs != [] {
      var m, rest := msgs[0], msgs[1..];
      FoldSends(Step(s, m, true), rest);
      if IsDelta(m) {
        StreamedStep(s.sent, s.pending, m.text, Narrates(rest), Answer(rest, true));
      } else if !IsStop(m) && m.Assistant? && m.error == "" && !s.streamed && AssistantText(m.content) != "" {
        assert s.sent + [AssistantText(m.content)] + Answer(rest, false) == s.sent + ([AssistantText(m.content)] + Answer(rest, false));
      }
    }
  }

  lemma StreamedStep(sent: seq<string>, pending: seq<string>, text: string, narrates: bool, rest: seq<string>)
    ensures sent + (if narrates then [] else pending + [text]) + rest
            == sent + (if narrates then [] else pending) + ((if narrates then [] else [text]) + rest)
  {
  }

  /** What reaches `on_delta` over a whole turn is exactly the answer. */
  lemma StreamedIsAnswer(msgs: seq<Msg>)
    ensures FoldFrom(START, msgs, true).sent == Answer(msgs, false)
  {
    FoldSends(START, msgs);
  }

  lemma StepListens(s: Fold, t: Fold, m: Msg)
    requires t == s.(sent := t.sent)
    ensures Step(t, m, false) == Step(s, m, true).(sent := t.sent)
  {
    assert t.sent + [] == t.sent;
  }

  /** A turn without a listener gives the same result and sends nothing. */
  lemma {:induction false} ListeningChangesNothing(s: Fold, t: Fold, msgs: seq<Msg>)
    requires t == s.(sent := t.sent)
    ensures Outcome(FoldFrom(s, msgs, true)) == Outcome(FoldFrom(t, msgs, false))
    ensures FoldFrom(t, msgs, false).sent == t.sent
    decreases msgs
  {
    if msgs != [] {
      StepListens(s, t, msgs[0]);
      ListeningChangesNothing(Step(s, msgs[0], true), Step(t, msgs[0], false), msgs[1..]);
    }
  }

  // --- tool calls ---------------------------------------------------------------------------------

  function ResultsOf(m: Msg): seq<(string, bool)> {
    if m.User? then ToolResults(m.blocks) else []
  }

  function CallsOf(m: Msg): seq<Call> {
    if m.Assistant? then ToolCalls(m.content) else []
  }

  lemma StepTools(s: Fold, m: Msg, listens: bool)
    ensures Step(s, m, listens).toolErrors == Update(s.toolErrors, ResultsOf(m))
    ensures Step(s, m, listens).calls == s.calls + CallsOf(m)
  {
  }

  function AllResults(msgs: seq<Msg>): seq<(string, bool)> {
    if msgs == [] then []
    else ResultsOf(msgs[0]) + AllResults(msgs[1..])
  }

  function AllCalls(msgs: seq<Msg>): seq<Call> {
    if msgs == [] then []
    else CallsOf(msgs[0]) + AllCalls(msgs[1..])
  }

  lemma {:induction false} UpdateTwice(m: map<string, bool>, a: seq<(string, bool)>, b: seq<(string, bool)>)
    ensures Update(Update(m, a), b) == Update(m, a + b)
    decreases b
  {
    if b == [] {
      assert a + b == a;
    } else {
      UpdateTwice(m, a, b[..|b| - 1]);
      assert (a + b)[..|a + b| - 1] == a + b[..|b| - 1];
    }
  }

  lemma {:induction false} FoldTools(s: Fold, msgs: seq<Msg>, listens: bool)
    ensures FoldFrom(s, msgs, listens).toolErrors == Update(s.toolErrors, AllResults(msgs))
    ensures FoldFrom(s, msgs, listens).calls == s.calls + AllCalls(msgs)
    decreases msgs
  {
    if msgs != [] {
      StepTools(s, msgs[0], listens);
      FoldTools(Step(s, msgs[0], listens), msgs[1..], listens);
      UpdateTwice(s.toolErrors, ResultsOf(msgs[0]), AllResults(msgs[1..]));
      CallsStep(s.calls, CallsOf(msgs[0]), AllCalls(msgs[1..]));
    }
  }

  lemma CallsStep(a: seq<Call>, b: seq<Call>, c: seq<Call>)
    ensures (a + b) + c == a + (b + c) && a + [] == a
  {
  }

  /** The last result for `id` is at `k`. */
  predicate LastFor(results: seq<(string, bool)>, id: string, k: nat) {
    k < |results| && results[k].0 == id && forall j :: k < j < |results| ==> results[j].0 != id
  }

  lemma {:induction false} UpdateLast(results: seq<(string, bool)>, id: string)
    ensures id in Update(map[], results) <==> exists k: nat :: LastFor(results, id, k)
    ensures forall k: nat :: LastFor(results, id, k) ==> id in Update(map[], results) && Update(map[], results)[id] == results[k].1
    decreases results
  {
    if results != [] {
      var n := |results| - 1;
      var front := results[..n];
      UpdateLast(front, id);
      if results[n].0 == id {
        assert LastFor(results, id, n);
      } else {
        forall k: nat ensures LastFor(results, id, k) <==> LastFor(front, id, k) {
          if LastFor(front, id, k) {
            assert results[k] == front[k];
          }
        }
      }
    }
  }

  /**
   Each call of the turn is stamped ok exactly when results for its id came back and the last of them
   is no error. Silence is not success.
   */
  lemma OkMeansLastResult(msgs: seq<Msg>, listens: bool, i: nat)
    requires i < |AllCalls(msgs)|
    ensures var stamped := Outcome(FoldFrom(START, msgs, listens)).toolCalls;
            && |stamped| == |AllCalls(msgs)|
            && stamped[i].call == AllCalls(msgs)[i]
            && (stamped[i].ok <==>
                exists k: nat :: LastFor(AllResults(msgs), AllCalls(msgs)[i].id, k) && !AllResults(msgs)[k].1)
  {
    FoldTools(START, msgs, listens);
    assert [] + AllCalls(msgs) == AllCalls(msgs);
    UpdateLast(AllResults(msgs), AllCalls(msgs)[i].id);
  }

  /** `tools_used` names each tool once, exactly the tools called, in the order of their first calls. */
  lemma {:induction false} ToolsUsedOnce(calls: seq<Call>)
    ensures forall n :: n in FirstSeen(calls) <==> exists i :: 0 <= i < |calls| && calls[i].name == n
    ensures forall i, j :: 0 <= i < j < |FirstSeen(calls)| ==> FirstSeen(calls)[i] != FirstSeen(calls)[j]
    decreases calls
  {
    if calls != [] {
      var n := |calls| - 1;
      ToolsUsedOnce(calls[..n]);
      forall name ensures name in FirstSeen(calls) <==> exists i :: 0 <= i < |calls| && calls[i].name == name {
        if name in FirstSeen(calls[..n]) {
          var i :| 0 <= i < n && calls[..n][i].name == name;
          assert calls[i].name == name;
        }
        if exists i :: 0 <= i < |calls| && calls[i].name == name {
          var i :| 0 <= i < |calls| && calls[i].name == name;
          assert i < n ==> calls[..n][i].name == name;
        }
      }
    }
  }

  /** The tools of a longer turn extend those of its beginning, so the order is that of the first calls. */
  lemma {:induction false} ToolsUsedGrow(calls: seq<Call>, k: nat)
    requires k <= |calls|
    ensures FirstSeen(calls[..k]) <= FirstSeen(calls)
    decreases |calls| - k
  {
    if k < |calls| {
      ToolsUsedGrow(calls, k + 1);
      assert calls[..k + 1][..k] == calls[..k];
    } else {
      assert calls[..k] == calls;
    }
  }
}
