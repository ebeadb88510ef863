/**
 The byte-bounded window of the transcript that is sent to the model
 (agent_worker.py:495-539). The size of an encoded message is a parameter.
 */
module WorkerWindow {
  import opened Wrappers

  const MAX_CONTEXT_MESSAGES := 120
  const MAX_CONTEXT_BYTES := 1_000_000
  const CUT_RESERVE := 256
  const OMITTED := "[message omitted: context budget]"

  /** The `content` of a message: a string, or any other JSON value. */
  datatype Content = Text(text: string) | Structured(value: int)

  /** A transcript message: the five keys that are sent, and the ones that are not. */
  datatype Message = Message(role: Option<string>, content: Content, name: Option<string>, calls: seq<string>,
                             callId: Option<string>, others: Option<string>)
  {
    predicate IsTool() {
      role == Some("tool")
    }

    /** An assistant message that made the call `id`. */
    predicate Calls(id: Option<string>) {
      role == Some("assistant") && id.Some? && id.value in calls
    }
  }

  type Size = Message -> nat

  // -------------------------------------------------------------- cleaning

  function Strip(m: Message): Message {
    m.(others := None)
  }

  /** The messages with a role, without the keys that are not sent. */
  function Clean(history: seq<Message>): (clean: seq<Message>)
    ensures forall i :: 0 <= i < |clean| ==> clean[i].role.Some? && clean[i].others.None?
  {
    if history == [] then []
    else (if history[0].role.Some? then [Strip(history[0])] else []) + Clean(history[1..])
  }

  function Recent(clean: seq<Message>): seq<Message> {
    if |clean| <= MAX_CONTEXT_MESSAGES then clean else clean[|clean| - MAX_CONTEXT_MESSAGES..]
  }

  // ------------------------------------------------- what a window should be

  function Total(messages: seq<Message>, size: Size): nat {
    if messages == [] then 0 else size(messages[0]) + Total(messages[1..], size)
  }

  /** A text message cut to its last characters, as many as the bytes left over allow. */
  function Shorten(m: Message, used: nat): Message {
    match m.content
    case Structured(_) => m
    case Text(text) =>
      var room := MAX_CONTEXT_BYTES - used - CUT_RESERVE;
      if room <= 0 then m.(content := Text(OMITTED))
      else if room <= |text| then m.(content := Text(text[|text| - room..]))
      else m
  }

  /** What is kept of `m` when it is the newest one kept: all of it, or its shortened form. */
  function Fitted(m: Message, used: nat, size: Size): Message {
    if used + size(m) <= MAX_CONTEXT_BYTES then m else Shorten(m, used)
  }

  predicate Fits(m: Message, used: nat, size: Size) {
    used + size(Fitted(m, used, size)) <= MAX_CONTEXT_BYTES
  }

  /**
   `block` is the untrimmed window: the messages `recent[k..e]`, the newest of them cut if
   it must be; every message from `e` on is too big even when cut; what is kept fits, and
   one message more would not.
   */
  predicate IsBlock(recent: seq<Message>, used: nat, size: Size, k: nat, e: nat, block: seq<Message>) {
    && k <= e <= |recent| && |block| == e - k
    && (forall i :: e <= i < |recent| ==> !Fits(recent[i], used, size))
    && (k == e ==> e == 0)
    && (k < e ==>
          && Fits(recent[e - 1], used, size)
          && block == recent[k..e - 1] + [Fitted(recent[e - 1], used, size)]
          && used + Total(block, size) <= MAX_CONTEXT_BYTES
          && (0 < k ==> MAX_CONTEXT_BYTES < used + size(recent[k - 1]) + Total(block, size)))
  }

  /** Without the tool results at its front. */
  function Trim(block: seq<Message>): seq<Message> {
    if block != [] && block[0].IsTool() then Trim(block[1..]) else block
  }

  ghost predicate IsWindow(history: seq<Message>, used: nat, size: Size, window: seq<Message>) {
    exists k, e, block ::
      IsBlock(Recent(Clean(history)), used, size, k, e, block) && window == Trim(block)
  }

  // ---------------------------------------------------------- the algorithm

  method CleanHistory(history: seq<Message>) returns (clean: seq<Message>)
    ensures clean == Clean(history)
  {
    hide Clean, Strip;
    clean := [];
    var i := 0;
    assert history[0..] == history;
    while i < |history|
      invariant i <= |history|
      invariant clean + Clean(history[i..]) == Clean(history)
    {
      CleanStep(history, i);
      if history[i].role.Some? {
        clean := clean + [Strip(history[i])];
      }
      i := i + 1;
    }
    CleanEnd(history);
  }

  lemma CleanStep(history: seq<Message>, i: nat)
    requires i < |history|
    ensures Clean(history[i..])
            == (if history[i].role.Some? then [Strip(history[i])] else []) + Clean(history[i + 1..])
  {
    assert history[i..][1..] == history[i + 1..];
  }

  lemma CleanEnd(history: seq<Message>)
    ensures Clean(history[|history|..]) == []
  {
  }

  function Reversed<T>(s: seq<T>): seq<T> {
    if s == [] then [] else [s[|s| - 1]] + Reversed(s[..|s| - 1])
  }

  /** The loop's state: `newest` holds what is kept of `recent[i..e]`, newest first. */
  predicate Scanned(recent: seq<Message>, used: nat, size: Size, i: nat, e: nat, newest: seq<Message>, total: nat) {
    var block := Reversed(newest);
    && i <= e <= |recent| && |newest| == e - i && |block| == e - i
    && total == used + Total(block, size)
    && (forall j :: e <= j < |recent| ==> !Fits(recent[j], used, size))
    && (newest != [] ==>
          && Fits(recent[e - 1], used, size)
          && block == recent[i..e - 1] + [Fitted(recent[e - 1], used, size)]
          && total <= MAX_CONTEXT_BYTES)
  }

  lemma ScanKeeps(recent: seq<Message>, used: nat, size: Size, i: nat, e: nat, newest: seq<Message>, total: nat)
    requires 0 < i && Scanned(recent, used, size, i, e, newest, total)
    requires newest == [] ==> Fits(recent[i - 1], used, size)
    requires newest != [] ==> total + size(recent[i - 1]) <= MAX_CONTEXT_BYTES
    ensures var m := if newest == [] then Fitted(recent[i - 1], used, size) else recent[i - 1];
            Scanned(recent, used, size, i - 1, e, newest + [m], total + size(m))
  {
    var m := if newest == [] then Fitted(recent[i - 1], used, size) else recent[i - 1];
    assert (newest + [m])[..|newest|] == newest;
    var block := Reversed(newest);
    assert Reversed(newest + [m]) == [m] + block;
    assert ([m] + block)[1..] == block;
    if newest != [] {
      assert recent[i - 1..e - 1] == [m] + recent[i..e - 1];
    }
  }

  /** The window sent after a system prompt of `used` bytes (agent_worker.py:513-539). */
  method ApiMessages(history: seq<Message>, used: nat, size: Size) returns (window: seq<Message>)
    ensures IsWindow(history, used, size, window)
  {
    hide Scanned, Fits, Fitted, Shorten, Trim;
    var clean := CleanHistory(history);
    var recent := Recent(clean);
    var selected: seq<Message> := [];
    var total: nat := used;
    var i: nat := |recent|;
    ghost var e: nat := i;
    ScanStarts(recent, used, size);
    while 0 < i
      invariant i <= e <= |recent| && (selected == [] ==> i == e && total == used)
      invariant Scanned(recent, used, size, i, e, selected, total)
    {
      var message := recent[i - 1];
      ScanFits(message, total, size);
      if MAX_CONTEXT_BYTES < total + size(message) {
        if selected == [] {
          message := Shorten(message, total);
          if MAX_CONTEXT_BYTES < total + size(message) {
            ScanSkips(recent, used, size, i);
            e := e - 1;
            i := i - 1;
            continue;
          }
        } else {
          break;
        }
      }
      ScanKeeps(recent, used, size, i, e, selected, total);
      selected := selected + [message];
      total := total + size(message);
      i := i - 1;
    }
    ScanEnds(recent, used, size, i, e, selected, total);
    selected := Reversed(selected);
    window := selected;
    while window != [] && window[0].IsTool()
      invariant Trim(window) == Trim(selected)
      decreases |window|
    {
      TrimStep(window);
      window := window[1..];
    }
    TrimStep(window);
  }

  lemma ScanStarts(recent: seq<Message>, used: nat, size: Size)
    ensures Scanned(recent, used, size, |recent|, |recent|, [], used)
  {
  }

  lemma ScanFits(m: Message, used: nat, size: Size)
    ensures Fits(m, used, size) <==>
            used + size(if MAX_CONTEXT_BYTES < used + size(m) then Shorten(m, used) else m) <= MAX_CONTEXT_BYTES
    ensures Fitted(m, used, size) == if MAX_CONTEXT_BYTES < used + size(m) then Shorten(m, used) else m
  {
  }

  lemma ScanSkips(recent: seq<Message>, used: nat, size: Size, i: nat)
    requires 0 < i && Scanned(recent, used, size, i, i, [], used) && !Fits(recent[i - 1], used, size)
    ensures Scanned(recent, used, size, i - 1, i - 1, [], used)
  {
  }

  lemma ScanEnds(recent: seq<Message>, used: nat, size: Size, i: nat, e: nat, newest: seq<Message>, total: nat)
    requires Scanned(recent, used, size, i, e, newest, total)
    requires i == 0 || (newest != [] && MAX_CONTEXT_BYTES < total + size(recent[i - 1]))
    ensures IsBlock(recent, used, size, i, e, Reversed(newest))
  {
  }

  lemma TrimStep(window: seq<Message>)
    ensures Trim(window) == if window != [] && window[0].IsTool() then Trim(window[1..]) else window
  {
  }

  // --------------------------------------------------- what a window is made of

  lemma {:induction false} CleanConcat(a: seq<Message>, b: seq<Message>)
    ensures Clean(a + b) == Clean(a) + Clean(b)
  {
    if a == [] {
      assert a + b == b;
    } else {
      assert (a + b)[0] == a[0] && (a + b)[1..] == a[1..] + b;
      CleanConcat(a[1..], b);
    }
  }

  /** A message is sent, without the keys that are not for the model, exactly if it has a role. */
  lemma CleanEach(m: Message)
    ensures Clean([m]) == if m.role.Some? then [Message(m.role, m.content, m.name, m.calls, m.callId, None)] else []
  {
    assert [m][1..] == [];
  }

  lemma {:induction false} TrimSuffix(block: seq<Message>) returns (j: nat)
    ensures j <= |block| && Trim(block) == block[j..] && forall i :: 0 <= i < j ==> block[i].role == Some("tool")
    ensures j < |block| ==> block[j].role != Some("tool")
  {
    j := 0;
    if block != [] && block[0].IsTool() {
      var k := TrimSuffix(block[1..]);
      j := k + 1;
      assert forall i :: 1 <= i < j ==> block[i] == block[1..][i - 1];
    }
  }

  /** The last 120 messages are considered. */
  lemma RecentLast120(clean: seq<Message>)
    ensures |Recent(clean)| == (if |clean| < 120 then |clean| else 120)
    ensures Recent(clean) == clean[|clean| - |Recent(clean)|..]
  {
    assert clean[0..] == clean;
  }

  /**
   What is left of a message that is too big: of a text its end, as long as fits with 256 bytes
   to spare, or a note if nothing does; anything else stays.
   */
  lemma ShortenTheorem(m: Message, used: nat)
    ensures var s, room := Shorten(m, used), 1_000_000 - used - 256;
            && s.(content := m.content) == m
            && (m.content.Structured? ==> s == m)
            && (m.content.Text? && room <= 0 ==> s.content == Text("[message omitted: context budget]"))
            && (m.content.Text? && 0 < room ==>
                  && s.content.Text? && |s.content.text| == (if |m.content.text| < room then |m.content.text| else room)
                  && s.content.text == m.content.text[|m.content.text| - |s.content.text|..])
  {
    if m.content.Text? {
      assert m.content.text[0..] == m.content.text;
    }
  }

  // ------------------------------------------------------- laws of a window

  lemma {:induction false} TotalConcat(a: seq<Message>, b: seq<Message>, size: Size)
    ensures Total(a + b, size) == Total(a, size) + Total(b, size)
  {
    if a == [] {
      assert a + b == b;
    } else {
      assert (a + b)[1..] == a[1..] + b;
      TotalConcat(a[1..], b, size);
    }
  }

  /** A block that starts earlier is bigger by at least the message before the later start. */
  lemma BlocksOrdered(recent: seq<Message>, used: nat, size: Size, e: nat, k1: nat, b1: seq<Message>, k2: nat,
                      b2: seq<Message>)
    requires IsBlock(recent, used, size, k1, e, b1) && IsBlock(recent, used, size, k2, e, b2)
    ensures k2 <= k1
  {
    if k1 < k2 && k2 < e {
      var front := recent[k1..k2 - 1];
      assert b1 == front + ([recent[k2 - 1]] + b2) by {
        assert recent[k1..e - 1] == front + [recent[k2 - 1]] + recent[k2..e - 1];
      }
      assert ([recent[k2 - 1]] + b2)[1..] == b2;
      TotalConcat(front, [recent[k2 - 1]] + b2, size);
    }
  }

  /** The description leaves nothing open: there is one window for a history, a prompt and a size. */
  lemma WindowUnique(history: seq<Message>, used: nat, size: Size, w1: seq<Message>, w2: seq<Message>)
    requires IsWindow(history, used, size, w1) && IsWindow(history, used, size, w2)
    ensures w1 == w2
  {
    hide IsBlock, Recent, Clean, Trim;
    var recent := Recent(Clean(history));
    var k1, e1, b1 :| IsBlock(recent, used, size, k1, e1, b1) && w1 == Trim(b1);
    var k2, e2, b2 :| IsBlock(recent, used, size, k2, e2, b2) && w2 == Trim(b2);
    SameEnd(recent, used, size, k1, e1, b1, k2, e2, b2);
    SameEnd(recent, used, size, k2, e2, b2, k1, e1, b1);
    BlocksOrdered(recent, used, size, e1, k1, b1, k2, b2);
    BlocksOrdered(recent, used, size, e1, k2, b2, k1, b1);
    SameBlock(recent, used, size, k1, e1, b1, b2);
  }

  lemma SameBlock(recent: seq<Message>, used: nat, size: Size, k: nat, e: nat, b1: seq<Message>, b2: seq<Message>)
    requires IsBlock(recent, used, size, k, e, b1) && IsBlock(recent, used, size, k, e, b2)
    ensures b1 == b2
  {
    hide Fits, Fitted, Total;
  }

  lemma SameEnd(recent: seq<Message>, used: nat, size: Size,
                k1: nat, e1: nat, b1: seq<Message>, k2: nat, e2: nat, b2: seq<Message>)
    requires IsBlock(recent, used, size, k1, e1, b1) && IsBlock(recent, used, size, k2, e2, b2)
    ensures e2 <= e1
  {
  }

  /** What is sent fits the byte limit whenever the prompt does. */
  lemma WindowBounded(history: seq<Message>, used: nat, size: Size, window: seq<Message>)
    requires IsWindow(history, used, size, window) && used <= 1_000_000
    ensures used + Total(window, size) <= 1_000_000
    ensures |window| <= 120
  {
    var k, e, block :| IsBlock(Recent(Clean(history)), used, size, k, e, block) && window == Trim(block);
    TrimSmaller(block, size);
  }

  lemma {:induction false} TrimSmaller(block: seq<Message>, size: Size)
    ensures Total(Trim(block), size) <= Total(block, size)
    ensures |Trim(block)| <= |block|
    ensures Trim(block) != [] ==> !Trim(block)[0].IsTool()
  {
    if block != [] && block[0].IsTool() {
      TrimSmaller(block[1..], size);
    }
  }

  // ---------------------------------------------------------- tool exchanges

  /**
   Every tool result answers a call of the last message before it that is no tool result;
   `opener` is that message for the results at the front, and nothing is asked of those
   when it is not known.
   */
  predicate Exchanges(opener: Option<Message>, messages: seq<Message>)
    decreases |messages|
  {
    messages == [] ||
    (if messages[0].IsTool() then
       (opener.Some? ==> opener.value.Calls(messages[0].callId)) && Exchanges(opener, messages[1..])
     else Exchanges(Some(messages[0]), messages[1..]))
  }

  /** Every tool result has its call before it, with only tool results between. */
  predicate NoOrphans(messages: seq<Message>) {
    forall i :: 0 <= i < |messages| && messages[i].IsTool() ==> Answers(messages, i)
  }

  predicate Answers(messages: seq<Message>, i: nat)
    requires i < |messages|
  {
    exists j :: 0 <= j < i && messages[j].Calls(messages[i].callId)
                && forall l :: j < l < i ==> messages[l].IsTool()
  }

  /** The last message that is no tool result. */
  function Opener(opener: Option<Message>, messages: seq<Message>): Option<Message>
    decreases |messages|
  {
    if messages == [] then opener
    else Opener(if messages[0].IsTool() then opener else Some(messages[0]), messages[1..])
  }

  lemma {:induction false} ExchangesConcat(opener: Option<Message>, a: seq<Message>, b: seq<Message>)
    ensures Exchanges(opener, a + b) <==> Exchanges(opener, a) && Exchanges(Opener(opener, a), b)
    ensures Opener(opener, a + b) == Opener(Opener(opener, a), b)
    decreases |a|
  {
    if a == [] {
      assert a + b == b;
    } else {
      assert (a + b)[0] == a[0] && (a + b)[1..] == a[1..] + b;
      ExchangesConcat(if a[0].IsTool() then opener else Some(a[0]), a[1..], b);
    }
  }

  /** Knowing less about what came before asks less. */
  lemma {:induction false} ExchangesForget(opener: Option<Message>, messages: seq<Message>)
    requires Exchanges(opener, messages)
    ensures Exchanges(None, messages)
  {
    if messages != [] && messages[0].IsTool() {
      ExchangesForget(opener, messages[1..]);
    }
  }

  lemma {:induction false} OpenerAt(messages: seq<Message>) returns (j: int)
    ensures -1 <= j < |messages|
    ensures Opener(None, messages) == if j < 0 then None else Some(messages[j])
    ensures 0 <= j ==> !messages[j].IsTool()
    ensures forall l :: j < l < |messages| ==> messages[l].IsTool()
    decreases |messages|
  {
    if messages == [] {
      j := -1;
    } else {
      var init, last := messages[..|messages| - 1], messages[|messages| - 1];
      assert messages == init + [last];
      ExchangesConcat(None, init, [last]);
      if last.IsTool() {
        j := OpenerAt(init);
      } else {
        j := |messages| - 1;
      }
    }
  }

  /** The two readings agree: no orphans, and exchanges that do not begin with a result. */
  lemma {:induction false} NoOrphansMeans(messages: seq<Message>)
    ensures NoOrphans(messages) <==>
            Exchanges(None, messages) && (messages == [] || !messages[0].IsTool())
    decreases |messages|
  {
    if messages != [] {
      var init, last := messages[..|messages| - 1], messages[|messages| - 1];
      assert messages == init + [last];
      ExchangesConcat(None, init, [last]);
      NoOrphansMeans(init);
      var j := OpenerAt(init);
      AnswersPrefix(init, last);
      assert Exchanges(Opener(None, init), [last]) <==>
             (last.IsTool() && 0 <= j ==> init[j].Calls(last.callId));
      if last.IsTool() {
        AnswersAt(messages, j);
      }
    }
  }

  lemma AnswersPrefix(init: seq<Message>, last: Message)
    ensures NoOrphans(init + [last]) <==> NoOrphans(init) && (last.IsTool() ==> Answers(init + [last], |init|))
  {
    var all := init + [last];
    assert forall i :: 0 <= i < |init| ==> all[i] == init[i];
    forall i | 0 <= i < |init| ensures Answers(all, i) == Answers(init, i) {
      if Answers(init, i) {
        var j :| 0 <= j < i && init[j].Calls(init[i].callId) && forall l :: j < l < i ==> init[l].IsTool();
        assert all[j].Calls(all[i].callId);
      }
      if Answers(all, i) {
        var j :| 0 <= j < i && all[j].Calls(all[i].callId) && forall l :: j < l < i ==> all[l].IsTool();
        assert init[j].Calls(init[i].callId);
      }
    }
  }

  lemma AnswersAt(messages: seq<Message>, j: int)
    requires messages != [] && messages[|messages| - 1].IsTool()
    requires -1 <= j < |messages| - 1 && (0 <= j ==> !messages[j].IsTool())
    requires forall l :: j < l < |messages| - 1 ==> messages[l].IsTool()
    ensures var i := |messages| - 1;
            Answers(messages, i) <==> 0 <= j && messages[j].Calls(messages[i].callId)
  {
    var i := |messages| - 1;
    if Answers(messages, i) {
      var m :| 0 <= m < i && messages[m].Calls(messages[i].callId) && forall l :: m < l < i ==> messages[l].IsTool();
      assert m == j;
    }
  }

  // ----------------------------------------------------- windows of exchanges

  /** Cleaning keeps exchanges: a message without a role is no call and no result. */
  lemma {:induction false} CleanExchanges(opener: Option<Message>, history: seq<Message>)
    requires Exchanges(opener, history)
    ensures Exchanges(opener, Clean(history))
    decreases |history|
  {
    if history != [] {
      var m, rest := history[0], history[1..];
      if m.role.None? {
        CleanExchanges(Some(m), rest);
        NoCallNoResults(m, opener, Clean(rest));
        assert Clean(history) == Clean(rest);
      } else if m.IsTool() {
        CleanExchanges(opener, rest);
        assert Clean(history)[1..] == Clean(rest);
      } else {
        CleanExchanges(Some(m), rest);
        SameOpener(m, Strip(m), Clean(rest));
        assert Clean(history)[1..] == Clean(rest);
      }
    }
  }

  lemma NoCallNoResults(m: Message, opener: Option<Message>, messages: seq<Message>)
    requires Exchanges(Some(m), messages) && m.role.None?
    ensures Exchanges(opener, messages)
  {
  }

  lemma {:induction false} SameOpener(m: Message, m': Message, messages: seq<Message>)
    requires m.role == m'.role && m.calls == m'.calls && Exchanges(Some(m), messages)
    ensures Exchanges(Some(m'), messages)
    decreases |messages|
  {
    if messages != [] && messages[0].IsTool() {
      SameOpener(m, m', messages[1..]);
    }
  }

  lemma {:induction false} TrimExchanges(block: seq<Message>)
    requires Exchanges(None, block)
    ensures NoOrphans(Trim(block))
  {
    if block != [] && block[0].IsTool() {
      TrimExchanges(block[1..]);
    } else {
      NoOrphansMeans(block);
    }
  }

  lemma ShortenKeepsRole(m: Message, used: nat, size: Size)
    ensures Fitted(m, used, size) == m.(content := Fitted(m, used, size).content)
  {
  }

  /** A block of exchanges, its newest message possibly cut, is made of exchanges. */
  lemma BlockExchanges(recent: seq<Message>, used: nat, size: Size, k: nat, e: nat, block: seq<Message>)
    requires IsBlock(recent, used, size, k, e, block) && Exchanges(None, recent)
    ensures Exchanges(None, block)
  {
    if k < e {
      var m := recent[e - 1];
      var m' := Fitted(m, used, size);
      assert recent == recent[..k] + (recent[k..e - 1] + ([m] + recent[e..]));
      ExchangesConcat(None, recent[..k], recent[k..e - 1] + ([m] + recent[e..]));
      ExchangesForget(Opener(None, recent[..k]), recent[k..e - 1] + ([m] + recent[e..]));
      ExchangesConcat(None, recent[k..e - 1], [m] + recent[e..]);
      ExchangesConcat(Opener(None, recent[k..e - 1]), [m], recent[e..]);
      ShortenKeepsRole(m, used, size);
      ExchangesConcat(None, recent[k..e - 1], [m']);
    }
  }

  /**
   No window is sent with an orphaned tool result, whatever the prompt and the sizes,
   exactly when in the last 120 messages every tool result that has an earlier message to
   answer follows its call with only tool results between.
   */
  lemma OrphanTheorem(history: seq<Message>)
    ensures (forall used, size: Size, w :: IsWindow(history, used, size, w) ==> NoOrphans(w))
            <==> Exchanges(None, Recent(Clean(history)))
  {
    hide *;
    if Exchanges(None, Recent(Clean(history))) {
      forall used, size: Size, w | IsWindow(history, used, size, w) ensures NoOrphans(w) {
        WindowOfExchanges(history, used, size, w);
      }
    }
    WholeWindow(history);
    if NoOrphans(Trim(Recent(Clean(history)))) {
      UntrimExchanges(Recent(Clean(history)));
    }
  }

  /**
   For one prompt and one size, whatever they are: the window has no orphaned result exactly
   when in the messages it was made from every result that has an earlier one to answer
   follows its call.
   */
  lemma BlockTheorem(recent: seq<Message>, used: nat, size: Size, k: nat, e: nat, block: seq<Message>)
    requires IsBlock(recent, used, size, k, e, block)
    ensures NoOrphans(Trim(block)) <==> Exchanges(None, recent[k..e])
  {
    if k < e {
      var m := recent[e - 1];
      var m' := Fitted(m, used, size);
      assert recent[k..e] == recent[k..e - 1] + [m];
      ShortenKeepsRole(m, used, size);
      ExchangesConcat(None, recent[k..e - 1], [m]);
      ExchangesConcat(None, recent[k..e - 1], [m']);
      assert [m][1..] == [] && [m'][1..] == [];
    }
    if Exchanges(None, block) {
      TrimExchanges(block);
    }
    if NoOrphans(Trim(block)) {
      UntrimExchanges(block);
    }
  }

  lemma WindowOfExchanges(history: seq<Message>, used: nat, size: Size, window: seq<Message>)
    requires Exchanges(None, Recent(Clean(history))) && IsWindow(history, used, size, window)
    ensures NoOrphans(window)
  {
    hide Exchanges, IsBlock, Recent, Clean, NoOrphans, Trim;
    var recent := Recent(Clean(history));
    var k, e, block :| IsBlock(recent, used, size, k, e, block) && window == Trim(block);
    BlockExchanges(recent, used, size, k, e, block);
    TrimExchanges(block);
  }

  /** If messages cost nothing, all of the last 120 are sent. */
  lemma WholeWindow(history: seq<Message>)
    ensures IsWindow(history, 0, m => 0, Trim(Recent(Clean(history))))
  {
    hide Recent, Clean, Trim;
    var recent := Recent(Clean(history));
    TotalZero(recent);
    assert recent != [] ==> recent == recent[0..|recent| - 1] + [recent[|recent| - 1]];
    assert IsBlock(recent, 0, m => 0, 0, |recent|, recent);
  }

  lemma {:induction false} TotalZero(messages: seq<Message>)
    ensures Total(messages, m => 0) == 0
  {
    if messages != [] {
      TotalZero(messages[1..]);
    }
  }

  lemma {:induction false} UntrimExchanges(block: seq<Message>)
    requires NoOrphans(Trim(block))
    ensures Exchanges(None, block)
  {
    if block != [] && block[0].IsTool() {
      UntrimExchanges(block[1..]);
    } else {
      NoOrphansMeans(block);
    }
  }

  /** In particular from a transcript whose tool results all follow their calls. */
  lemma NoOrphansSent(history: seq<Message>, used: nat, size: Size, window: seq<Message>)
    requires Exchanges(None, history) && IsWindow(history, used, size, window)
    ensures NoOrphans(window)
  {
    CleanExchanges(None, history);
    var clean := Clean(history);
    if MAX_CONTEXT_MESSAGES < |clean| {
      var cut := |clean| - MAX_CONTEXT_MESSAGES;
      assert clean == clean[..cut] + clean[cut..];
      ExchangesConcat(None, clean[..cut], clean[cut..]);
      ExchangesForget(Opener(None, clean[..cut]), clean[cut..]);
    }
    OrphanTheorem(history);
  }
}
