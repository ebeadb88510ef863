/**
 The two translations between chat messages and the items of the Responses API
 (llm.py:112-157, 179-236).
 */
module ResponsesTranslation {
  import opened Wrappers

  /** `content` of a message; a list of parts is passed on as it is, each part given by its JSON text. */
  datatype Content = Missing | Null | Text(text: string) | Parts(parts: seq<string>)

  /** A tool call of a chat message; `None` where a key is missing or null. */
  datatype Call = Call(id: Option<string>, name: Option<string>, arguments: Option<string>)

  datatype Calls = NoCalls | NullCalls | CallList(calls: seq<Call>)

  /** `legacy` is the older `function_call` object. */
  datatype Message = Message(role: string, content: Content, calls: Calls, legacy: Option<Call>,
                             callId: Option<string>, refusal: Option<string>)

  datatype Item =
    | Plain(message: Message)
    | FunctionCall(callId: string, name: string, arguments: string)
    | Output(callId: string, output: Content)

  const NO_ARGUMENTS := "{}"
  const NO_CALL_ID := "Tool messages must include tool_call_id for the Responses API"
  const NO_NAME := "Tool calls must include an id and function.name for the Responses API"
  const NO_LEGACY_NAME := "Function calls must include an id and name for the Responses API"
  const NULL_CALLS := "'NoneType' object is not iterable"

  predicate Given(s: Option<string>) {
    s.Some? && s.value != ""
  }

  predicate Present(content: Content) {
    content.Text? || content.Parts?
  }

  function Or(s: Option<string>, default: string): string {
    if s.Some? then s.value else default
  }

  predicate Complete(call: Call) {
    Given(call.id) && Given(call.name)
  }

  function CallItem(call: Call): Item
    requires Complete(call)
  {
    FunctionCall(call.id.value, call.name.value, Or(call.arguments, NO_ARGUMENTS))
  }

  // ------------------------------------------------------------ the reference

  /** All calls of a message, the older form last. */
  function CallsOf(m: Message): seq<Call> {
    if m.role == "tool" then []
    else (if m.calls.CallList? then m.calls.calls else []) + (if m.legacy.Some? then [m.legacy.value] else [])
  }

  /** What a message is without its calls, if it is sent as a message at all. */
  function PlainOf(m: Message): seq<Item> {
    if m.role != "tool" && (CallsOf(m) == [] || Present(m.content))
    then [Plain(m.(calls := NoCalls, legacy := None))] else []
  }

  predicate Encodable(m: Message) {
    if m.role == "tool" then Given(m.callId)
    else !m.calls.NullCalls? && forall i :: 0 <= i < |CallsOf(m)| ==> Complete(CallsOf(m)[i])
  }

  function CallItems(calls: seq<Call>): (items: seq<Item>)
    requires forall i :: 0 <= i < |calls| ==> Complete(calls[i])
    ensures |items| == |calls|
  {
    if calls == [] then [] else [CallItem(calls[0])] + CallItems(calls[1..])
  }

  function ItemsOf(m: Message): seq<Item>
    requires Encodable(m)
  {
    if m.role == "tool" then [Output(m.callId.value, if m.content.Missing? then Text("") else m.content)]
    else PlainOf(m) + CallItems(CallsOf(m))
  }

  predicate AllEncodable(messages: seq<Message>) {
    forall i :: 0 <= i < |messages| ==> Encodable(messages[i])
  }

  function Items(messages: seq<Message>): seq<Item>
    requires AllEncodable(messages)
  {
    if messages == [] then [] else ItemsOf(messages[0]) + Items(messages[1..])
  }

  // ---------------------------------------------------------- the translators

  method EncodeCalls(items: seq<Item>, calls: seq<Call>, problem: string) returns (result: Result<seq<Item>, string>)
    ensures result.Ok? <==> forall i :: 0 <= i < |calls| ==> Complete(calls[i])
    ensures result == if result.Ok? then Ok(items + CallItems(calls)) else Err(problem)
  {
    var out := items;
    for i := 0 to |calls|
      invariant forall k :: 0 <= k < i ==> Complete(calls[k])
      invariant out == items + CallItems(calls[..i])
    {
      if !Complete(calls[i]) {
        return Err(problem);
      }
      CallItemsSnoc(calls[..i], calls[i]);
      assert calls[..i] + [calls[i]] == calls[..i + 1];
      out := out + [CallItem(calls[i])];
    }
    assert calls[..|calls|] == calls;
    result := Ok(out);
  }

  /** `_response_input`: an error exactly if some message cannot be encoded. */
  method ResponseInput(messages: seq<Message>) returns (result: Result<seq<Item>, string>)
    ensures result.Ok? <==> AllEncodable(messages)
    ensures result.Ok? ==> result.value == Items(messages)
  {
    hide Encodable, ItemsOf;
    var items: seq<Item> := [];
    for i := 0 to |messages|
      invariant AllEncodable(messages[..i]) && items == Items(messages[..i])
    {
      var m := messages[i];
      var one: Result<seq<Item>, string> := EncodeOne(m);
      if one.Err? {
        return one;
      }
      ItemsSnoc(messages[..i], m);
      assert messages[..i] + [m] == messages[..i + 1];
      items := items + one.value;
    }
    assert messages[..|messages|] == messages;
    result := Ok(items);
  }

  method EncodeOne(m: Message) returns (result: Result<seq<Item>, string>)
    ensures result.Ok? <==> Encodable(m)
    ensures result.Ok? ==> result.value == ItemsOf(m)
  {
    if m.role == "tool" {
      if m.callId.None? || m.callId.value == "" {
        return Err(NO_CALL_ID);
      }
      return Ok([Output(m.callId.value, if m.content.Missing? then Text("") else m.content)]);
    }
    result := EncodeSpoken(m);
  }

  method EncodeSpoken(m: Message) returns (result: Result<seq<Item>, string>)
    requires m.role != "tool"
    ensures result.Ok? <==> !m.calls.NullCalls? && AllComplete(CallsOf(m))
    ensures result.Ok? ==> result.value == PlainOf(m) + CallItems(CallsOf(m))
  {
    hide Complete, CallItems;
    var items: seq<Item> := [];
    if (!(m.calls.CallList? && m.calls.calls != []) && m.legacy.None?) || Present(m.content) {
      items := [Plain(m.(calls := NoCalls, legacy := None))];
    }
    if m.calls.NullCalls? {
      return Err(NULL_CALLS);
    }
    var listed := if m.calls.CallList? then m.calls.calls else [];
    var older := if m.legacy.Some? then [m.legacy.value] else [];
    CallItemsConcat(listed, older);
    result := EncodeCalls(items, listed, NO_NAME);
    if result.Ok? {
      result := EncodeCalls(result.value, older, NO_LEGACY_NAME);
    }
  }

  predicate AllComplete(calls: seq<Call>) {
    forall i :: 0 <= i < |calls| ==> Complete(calls[i])
  }

  lemma {:induction false} CallItemsConcat(a: seq<Call>, b: seq<Call>)
    ensures AllComplete(a + b) <==> AllComplete(a) && AllComplete(b)
    ensures AllComplete(a + b) ==> CallItems(a + b) == CallItems(a) + CallItems(b)
  {
    assert forall i :: 0 <= i < |a| ==> (a + b)[i] == a[i];
    assert forall i :: 0 <= i < |b| ==> (a + b)[|a| + i] == b[i];
    if a == [] {
      assert a + b == b;
    } else {
      assert (a + b)[1..] == a[1..] + b;
      CallItemsConcat(a[1..], b);
    }
  }

  lemma CallItemsSnoc(calls: seq<Call>, call: Call)
    requires AllComplete(calls) && Complete(call)
    ensures AllComplete(calls + [call]) && CallItems(calls + [call]) == CallItems(calls) + [CallItem(call)]
  {
    CallItemsConcat(calls, [call]);
    assert CallItems([call]) == [CallItem(call)];
  }

  // --------------------------------------------------- laws of the encoding

  lemma EncodableConcat(a: seq<Message>, b: seq<Message>)
    ensures AllEncodable(a + b) <==> AllEncodable(a) && AllEncodable(b)
  {
    hide Encodable;
    assert forall i :: 0 <= i < |a| ==> (a + b)[i] == a[i];
    assert forall i :: 0 <= i < |b| ==> (a + b)[|a| + i] == b[i];
  }

  lemma ItemsStep(messages: seq<Message>)
    requires messages != [] && AllEncodable(messages)
    ensures Encodable(messages[0]) && AllEncodable(messages[1..])
    ensures Items(messages) == ItemsOf(messages[0]) + Items(messages[1..])
  {
  }

  /** Encoding distributes over concatenation, errors included. */
  lemma {:induction false} ItemsConcat(a: seq<Message>, b: seq<Message>)
    ensures AllEncodable(a + b) <==> AllEncodable(a) && AllEncodable(b)
    ensures AllEncodable(a + b) ==> Items(a + b) == Items(a) + Items(b)
  {
    hide AllEncodable, Encodable, ItemsOf;
    EncodableConcat(a, b);
    if a == [] {
      assert a + b == b;
    } else if AllEncodable(a + b) {
      assert (a + b)[0] == a[0] && (a + b)[1..] == a[1..] + b;
      ItemsConcat(a[1..], b);
      ItemsStep(a + b);
      ItemsStep(a);
    }
  }

  lemma ItemsSnoc(messages: seq<Message>, m: Message)
    requires AllEncodable(messages)
    ensures AllEncodable(messages + [m]) <==> Encodable(m)
    ensures Encodable(m) ==> Items(messages + [m]) == Items(messages) + ItemsOf(m)
  {
    ItemsConcat(messages, [m]);
    if Encodable(m) {
      assert Items([m]) == ItemsOf(m) + [] == ItemsOf(m);
    } else {
      assert ([m])[0] == m;
    }
  }

  /** The calls of a history in order, and those of a list of items. */
  function HistoryCalls(messages: seq<Message>): seq<Call> {
    if messages == [] then [] else CallsOf(messages[0]) + HistoryCalls(messages[1..])
  }

  function OnlyCalls(items: seq<Item>): seq<Item> {
    if items == [] then [] else (if items[0].FunctionCall? then [items[0]] else []) + OnlyCalls(items[1..])
  }

  function OutputIds(items: seq<Item>): seq<string> {
    if items == [] then [] else (if items[0].Output? then [items[0].callId] else []) + OutputIds(items[1..])
  }

  function ResultIds(messages: seq<Message>): seq<string>
    requires AllEncodable(messages)
  {
    if messages == [] then []
    else (if messages[0].role == "tool" then [messages[0].callId.value] else []) + ResultIds(messages[1..])
  }

  lemma {:induction false} OnlyConcat(a: seq<Item>, b: seq<Item>)
    ensures OnlyCalls(a + b) == OnlyCalls(a) + OnlyCalls(b)
    ensures OutputIds(a + b) == OutputIds(a) + OutputIds(b)
  {
    if a == [] {
      assert a + b == b;
    } else {
      assert (a + b)[0] == a[0] && (a + b)[1..] == a[1..] + b;
      OnlyConcat(a[1..], b);
      var one, id := if a[0].FunctionCall? then [a[0]] else [], if a[0].Output? then [a[0].callId] else [];
      assert one + OnlyCalls(a[1..]) + OnlyCalls(b) == one + (OnlyCalls(a[1..]) + OnlyCalls(b));
      assert id + OutputIds(a[1..]) + OutputIds(b) == id + (OutputIds(a[1..]) + OutputIds(b));
    }
  }

  lemma {:induction false} CallItemsOnly(calls: seq<Call>)
    requires AllComplete(calls)
    ensures OnlyCalls(CallItems(calls)) == CallItems(calls) && OutputIds(CallItems(calls)) == []
  {
    if calls != [] {
      assert CallItems(calls)[1..] == CallItems(calls[1..]);
      CallItemsOnly(calls[1..]);
    }
  }

  lemma ItemsOfParts(m: Message)
    requires Encodable(m)
    ensures AllComplete(CallsOf(m)) && OnlyCalls(ItemsOf(m)) == CallItems(CallsOf(m))
    ensures OutputIds(ItemsOf(m)) == if m.role == "tool" then [m.callId.value] else []
  {
    if m.role != "tool" {
      var plain := PlainOf(m);
      OnlyConcat(plain, CallItems(CallsOf(m)));
      CallItemsOnly(CallsOf(m));
      assert plain != [] ==> plain[1..] == [];
      assert OnlyCalls(plain) == [] && OutputIds(plain) == [];
    }
  }

  /** A history's items hold exactly its calls and its results, each in the history's order. */
  lemma {:induction false} EncodingKeepsOrder(messages: seq<Message>)
    requires AllEncodable(messages)
    ensures AllComplete(HistoryCalls(messages)) && OnlyCalls(Items(messages)) == CallItems(HistoryCalls(messages))
    ensures OutputIds(Items(messages)) == ResultIds(messages)
  {
    hide ItemsOf, Encodable, CallsOf;
    if messages != [] {
      var m, rest := messages[0], messages[1..];
      FirstEncodable(messages);
      EncodingKeepsOrder(rest);
      ItemsOfParts(m);
      OnlyConcat(ItemsOf(m), Items(rest));
      CallItemsConcat(CallsOf(m), HistoryCalls(rest));
    }
  }

  lemma FirstEncodable(messages: seq<Message>)
    requires AllEncodable(messages) && messages != []
    ensures Encodable(messages[0]) && AllEncodable(messages[1..])
  {
  }

  /** A tool result that follows its call still does after encoding. */
  lemma ResultAfterCall(messages: seq<Message>, i: nat, k: nat, j: nat)
    requires AllEncodable(messages) && i < j < |messages| && k < |CallsOf(messages[i])|
    requires messages[j].role == "tool" && messages[j].callId == CallsOf(messages[i])[k].id
    ensures var items := Items(messages);
            exists p, q :: 0 <= p < q < |items| && items[p].FunctionCall? && items[q].Output?
                           && items[p].callId == items[q].callId == messages[j].callId.value
  {
    var before, after := messages[..j], messages[j..];
    assert messages == before + after && before[i] == messages[i];
    ItemsConcat(before, after);
    CallIsEncoded(before, i, k);
    var p :| 0 <= p < |Items(before)| && Items(before)[p].FunctionCall?
             && Items(before)[p].callId == CallsOf(messages[i])[k].id.value;
    var q := |Items(before)|;
    assert Encodable(messages[j]) && after[0] == messages[j];
    assert Items(after)[0] == ItemsOf(messages[j])[0];
    assert Items(messages)[p] == Items(before)[p] && Items(messages)[q] == Items(after)[0];
  }

  lemma {:induction false} CallIsEncoded(messages: seq<Message>, i: nat, k: nat)
    requires AllEncodable(messages) && i < |messages| && k < |CallsOf(messages[i])|
    ensures exists p :: 0 <= p < |Items(messages)| && Items(messages)[p].FunctionCall?
                        && CallsOf(messages[i])[k].id.Some?
                        && Items(messages)[p].callId == CallsOf(messages[i])[k].id.value
  {
    hide *;
    var m := messages[i];
    var before, after := messages[..i], messages[i + 1..];
    assert messages == before + ([m] + after);
    ItemsConcat(before, [m] + after);
    ItemsConcat([m], after);
    OneMessage(m);
    CallInMessage(m, k);
    assert Items(messages) == Items(before) + (ItemsOf(m) + Items(after));
    var p := |Items(before)| + |PlainOf(m)| + k;
    assert Items(messages)[p] == ItemsOf(m)[|PlainOf(m)| + k];
  }

  lemma OneMessage(m: Message)
    requires AllEncodable([m])
    ensures Encodable(m) && Items([m]) == ItemsOf(m)
  {
    hide Encodable, ItemsOf;
    FirstEncodable([m]);
    assert [m][1..] == [] && ItemsOf(m) + [] == ItemsOf(m);
  }

  lemma CallInMessage(m: Message, k: nat)
    requires Encodable(m) && k < |CallsOf(m)|
    ensures var p := |PlainOf(m)| + k;
            && p < |ItemsOf(m)| && ItemsOf(m)[p].FunctionCall?
            && CallsOf(m)[k].id.Some? && ItemsOf(m)[p].callId == CallsOf(m)[k].id.value
  {
    hide CallItems, PlainOf;
    CallItemAt(CallsOf(m), k);
  }

  lemma {:induction false} CallItemAt(calls: seq<Call>, k: nat)
    requires AllComplete(calls) && k < |calls|
    ensures CallItems(calls)[k] == CallItem(calls[k])
  {
    if 0 < k {
      CallItemAt(calls[1..], k - 1);
    }
  }

  /** The id, the name and the arguments of every call are passed on. */
  lemma CallContents(calls: seq<Call>, k: nat)
    requires AllComplete(calls) && k < |calls|
    ensures var item, call := CallItems(calls)[k], calls[k];
            && item.FunctionCall? && Some(item.callId) == call.id && Some(item.name) == call.name
            && item.arguments == if call.arguments.Some? then call.arguments.value else "{}"
  {
    CallItemAt(calls, k);
  }

  /** A tool message becomes the output of its call, with its content; a missing one is empty. */
  lemma ToolContents(m: Message)
    requires m.role == "tool"
    ensures AllEncodable([m]) <==> m.callId.Some? && m.callId.value != ""
    ensures AllEncodable([m]) ==>
              Items([m]) == [Output(m.callId.value, if m.content == Missing then Text("") else m.content)]
  {
    ItemsSnoc([], m);
    assert [] + [m] == [m] && Items([]) == [];
  }

  /**
   Any other message is sent as it is, without its calls, if it has no call or its content is
   not null; then its calls follow, the older form last.
   */
  lemma SpokenContents(m: Message)
    requires m.role != "tool" && AllEncodable([m])
    ensures var calls := (if m.calls.CallList? then m.calls.calls else [])
                         + (if m.legacy.Some? then [m.legacy.value] else []);
            && !m.calls.NullCalls? && AllComplete(calls)
            && Items([m]) == (if calls == [] || m.content.Text? || m.content.Parts?
                              then [Item.Plain(m.(calls := NoCalls, legacy := None))] else [])
                             + CallItems(calls)
  {
    ItemsSnoc([], m);
    assert [m][0] == m && [] + [m] == [m] && Items([]) == [];
    assert Items([m]) == [] + ItemsOf(m) == ItemsOf(m);
  }

  // ------------------------------------------------------------- adapting

  datatype Part = OutputText(text: string) | Refusal(reason: Option<string>) | OtherPart

  /** An item of a response; a function call may carry its id under either key. */
  datatype Produced =
    | Said(parts: seq<Part>)
    | Called(callId: Option<string>, id: Option<string>, name: Option<string>, arguments: Option<string>)
    | OtherItem

  datatype Response = Response(failed: bool, cutShort: bool, output: seq<Produced>)

  datatype Completion = Completion(message: Message, finish: string)

  const FAILED := "Responses API request failed"
  const NO_ITEM_NAME := "'name'"

  /** The calls a response made, in order. */
  function ResponseCalls(output: seq<Produced>): seq<Call> {
    if output == [] then []
    else (if output[0].Called? then [AdaptedCall(output[0])] else []) + ResponseCalls(output[1..])
  }

  function AdaptedCall(item: Produced): Call
    requires item.Called?
  {
    Call(if Given(item.callId) then item.callId else item.id, item.name, Some(Or(item.arguments, NO_ARGUMENTS)))
  }

  function PartTexts(parts: seq<Part>): seq<string> {
    if parts == [] then [] else (if parts[0].OutputText? then [parts[0].text] else []) + PartTexts(parts[1..])
  }

  /** The texts a response said, in order. */
  function Texts(output: seq<Produced>): seq<string> {
    if output == [] then []
    else (if output[0].Said? then PartTexts(output[0].parts) else []) + Texts(output[1..])
  }

  function Joined(texts: seq<string>): string {
    if texts == [] then "" else texts[0] + Joined(texts[1..])
  }

  predicate Adaptable(response: Response) {
    !response.failed && forall i :: 0 <= i < |response.output| && response.output[i].Called? ==>
      response.output[i].name.Some?
  }

  /** The last refusal read, if any. */
  function PartRefusal(parts: seq<Part>, sofar: Option<string>): Option<string> {
    if parts == [] then sofar
    else PartRefusal(parts[1..], if parts[0].Refusal? then parts[0].reason else sofar)
  }

  function LastRefusal(output: seq<Produced>, sofar: Option<string>): Option<string> {
    if output == [] then sofar
    else LastRefusal(output[1..], if output[0].Said? then PartRefusal(output[0].parts, sofar) else sofar)
  }

  /** The assistant message for a response. */
  function AdaptedMessage(response: Response): Message {
    var calls, texts := ResponseCalls(response.output), Texts(response.output);
    Message("assistant", if texts == [] then Null else Text(Joined(texts)),
            if calls == [] then NoCalls else CallList(calls),
            None, None, LastRefusal(response.output, None))
  }

  method ReadParts(parts: seq<Part>, content: seq<string>, refusal: Option<string>)
    returns (content': seq<string>, refusal': Option<string>)
    ensures content' == content + PartTexts(parts) && refusal' == PartRefusal(parts, refusal)
  {
    content', refusal' := content, refusal;
    for i := 0 to |parts|
      invariant content' + PartTexts(parts[i..]) == content + PartTexts(parts)
      invariant PartRefusal(parts[i..], refusal') == PartRefusal(parts, refusal)
    {
      assert parts[i..][1..] == parts[i + 1..];
      if parts[i].OutputText? {
        content' := content' + [parts[i].text];
      } else if parts[i].Refusal? {
        refusal' := parts[i].reason;
      }
    }
  }

  lemma AdaptableIs(response: Response)
    ensures Adaptable(response) <==>
            !response.failed && !exists item :: item in response.output && item.Called? && item.name.None?
  {
  }

  lemma AdaptedParts(response: Response)
    ensures var calls, texts := ResponseCalls(response.output), Texts(response.output);
            AdaptedMessage(response)
            == Message("assistant", if texts == [] then Null else Text(Joined(texts)),
                       if calls == [] then NoCalls else CallList(calls), None, None, LastRefusal(response.output, None))
  {
  }

  /** `_adapt_response`: the texts joined, the calls in order, an error if it failed or a call has no name. */
  method AdaptResponse(response: Response) returns (result: Result<Completion, string>)
    ensures result.Ok? <==> Adaptable(response)
    ensures result.Err? <==>
              response.failed || exists item :: item in response.output && item.Called? && item.name.None?
    ensures result.Ok? ==>
              && result.value.message == AdaptedMessage(response)
              && (var m, texts := result.value.message, Texts(response.output);
                  && m.role == "assistant" && m.content == (if texts == [] then Null else Text(Joined(texts)))
                  && (m.calls == NoCalls || (m.calls.CallList? && m.calls.calls != []))
                  && (if m.calls.CallList? then m.calls.calls else []) == ResponseCalls(response.output)
                  && m.refusal == LastRefusal(response.output, None))
              && result.value.finish in {"length", "tool_calls", "stop"}
              && (result.value.finish == "length" <==> response.cutShort)
              && (result.value.finish == "tool_calls" <==> !response.cutShort && ResponseCalls(response.output) != [])
  {
    hide Adaptable, AdaptedMessage, Texts, ResponseCalls, LastRefusal, PartTexts, PartRefusal, Joined, AdaptedCall;
    AdaptableIs(response);
    if response.failed {
      return Err(FAILED);
    }
    var content: seq<string>, calls: seq<Call>, refusal := [], [], None;
    var output := response.output;
    assert output[0..] == output;
    for i := 0 to |output|
      invariant content + Texts(output[i..]) == Texts(output)
      invariant calls + ResponseCalls(output[i..]) == ResponseCalls(output)
      invariant LastRefusal(output[i..], refusal) == LastRefusal(output, None)
      invariant forall k :: 0 <= k < i && output[k].Called? ==> output[k].name.Some?
    {
      OutputStep(output, i, refusal);
      match output[i]
      case Said(parts) =>
        ghost var rest := Texts(output[i + 1..]);
        assert content + PartTexts(parts) + rest == content + (PartTexts(parts) + rest);
        content, refusal := ReadParts(parts, content, refusal);
      case Called(_, _, name, _) =>
        if name.None? {
          return Err(NO_ITEM_NAME);
        }
        calls := calls + [AdaptedCall(output[i])];
      case OtherItem =>
    }
    OutputEnd(refusal);
    assert output[|output|..] == [];
    assert content == Texts(output);
    assert calls == ResponseCalls(output);
    assert refusal == LastRefusal(output, None);
    var message := Message("assistant", if content == [] then Null else Text(Joined(content)),
                           if calls == [] then NoCalls else CallList(calls), None, None, refusal);
    AdaptedParts(response);
    var finish := if response.cutShort then "length" else if calls != [] then "tool_calls" else "stop";
    result := Ok(Completion(message, finish));
  }

  lemma OutputStep(output: seq<Produced>, i: nat, refusal: Option<string>)
    requires i < |output|
    ensures var item, rest := output[i], output[i + 1..];
            && Texts(output[i..]) == (if item.Said? then PartTexts(item.parts) else []) + Texts(rest)
            && ResponseCalls(output[i..]) == (if item.Called? then [AdaptedCall(item)] else []) + ResponseCalls(rest)
            && LastRefusal(output[i..], refusal)
               == LastRefusal(rest, if item.Said? then PartRefusal(item.parts, refusal) else refusal)
  {
    assert output[i..][1..] == output[i + 1..];
  }

  lemma OutputEnd(refusal: Option<string>)
    ensures Texts([]) == [] && ResponseCalls([]) == [] && LastRefusal([], refusal) == refusal
  {
  }

  // ------------------------------------------------------------- round trip

  /**
   Sending an adapted answer back: it can be encoded exactly if every call has an id and a
   name, and then gives at most one message item, holding the joined text, followed by the
   response's calls in order with the same id, name and arguments.
   */
  lemma RoundTrip(response: Response)
    requires Adaptable(response)
    ensures var calls, texts := ResponseCalls(response.output), Texts(response.output);
            var message := AdaptedMessage(response);
            && (AllEncodable([message]) <==> AllComplete(calls))
            && (AllComplete(calls) ==>
                  var items := Items([message]);
                  var said := |items| - |calls|;
                  && 0 <= said <= 1 && (said == 0 <==> calls != [] && texts == [])
                  && items[said..] == CallItems(calls)
                  && (said == 1 ==> items[0].Plain? && items[0].message == message.(calls := NoCalls))
                  && (said == 1 && texts != [] ==> items[0].message.content == Text(Joined(texts))))
  {
    var message := AdaptedMessage(response);
    assert CallsOf(message) == ResponseCalls(response.output);
    assert AllEncodable([message]) <==> Encodable(message) by {
      assert [message][0] == message;
    }
    if Encodable(message) {
      assert Items([message]) == ItemsOf(message) + [] == ItemsOf(message);
      assert AllComplete(CallsOf(message));
    }
  }

  // ----------------------------------------------- what an answer is made of

  lemma {:induction false} TextsConcat(a: seq<Produced>, b: seq<Produced>)
    ensures Texts(a + b) == Texts(a) + Texts(b)
  {
    hide PartTexts;
    if a == [] {
      assert a + b == b;
    } else {
      assert (a + b)[0] == a[0] && (a + b)[1..] == a[1..] + b;
      TextsConcat(a[1..], b);
      var first := if a[0].Said? then PartTexts(a[0].parts) else [];
      assert first + Texts(a[1..]) + Texts(b) == first + (Texts(a[1..]) + Texts(b));
    }
  }

  lemma {:induction false} CallsConcat(a: seq<Produced>, b: seq<Produced>)
    ensures ResponseCalls(a + b) == ResponseCalls(a) + ResponseCalls(b)
  {
    hide AdaptedCall;
    if a == [] {
      assert a + b == b;
    } else {
      assert (a + b)[0] == a[0] && (a + b)[1..] == a[1..] + b;
      CallsConcat(a[1..], b);
    }
  }

  lemma {:induction false} RefusalConcat(a: seq<Produced>, b: seq<Produced>, refusal: Option<string>)
    ensures LastRefusal(a + b, refusal) == LastRefusal(b, LastRefusal(a, refusal))
    decreases |a|
  {
    hide PartRefusal;
    if a == [] {
      assert a + b == b;
    } else {
      assert (a + b)[0] == a[0] && (a + b)[1..] == a[1..] + b;
      RefusalConcat(a[1..], b, if a[0].Said? then PartRefusal(a[0].parts, refusal) else refusal);
    }
  }

  lemma {:induction false} PartsConcat(a: seq<Part>, b: seq<Part>)
    ensures PartTexts(a + b) == PartTexts(a) + PartTexts(b)
    ensures forall refusal :: PartRefusal(a + b, refusal) == PartRefusal(b, PartRefusal(a, refusal))
  {
    if a == [] {
      assert a + b == b;
    } else {
      assert (a + b)[0] == a[0] && (a + b)[1..] == a[1..] + b;
      PartsConcat(a[1..], b);
    }
  }

  /** One part: a text is kept, a refusal replaces the one before. */
  lemma OnePart(part: Part, refusal: Option<string>)
    ensures PartTexts([part]) == (if part.OutputText? then [part.text] else [])
    ensures PartRefusal([part], refusal) == if part.Refusal? then part.reason else refusal
  {
    assert [part][1..] == [];
  }

  /** One item: a message gives its parts, a call itself, with the id under either key and `{}` for no arguments. */
  lemma OneItem(item: Produced, refusal: Option<string>)
    ensures Texts([item]) == (if item.Said? then PartTexts(item.parts) else [])
    ensures LastRefusal([item], refusal) == if item.Said? then PartRefusal(item.parts, refusal) else refusal
    ensures ResponseCalls([item]) ==
            if !item.Called? then []
            else [Call(if item.callId.Some? && item.callId.value != "" then item.callId else item.id, item.name,
                       Some(if item.arguments.Some? then item.arguments.value else "{}"))]
  {
    assert [item][1..] == [];
  }

  lemma {:induction false} JoinedConcat(a: seq<string>, b: seq<string>)
    ensures Joined(a + b) == Joined(a) + Joined(b)
    ensures forall text :: Joined([text]) == text
  {
    forall text ensures Joined([text]) == text {
      assert [text][1..] == [] && Joined([]) == "";
    }
    if a == [] {
      assert a + b == b;
    } else {
      assert (a + b)[0] == a[0] && (a + b)[1..] == a[1..] + b;
      JoinedConcat(a[1..], b);
    }
  }
}
