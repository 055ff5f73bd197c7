/** The conversation history of `run_chat` as values: the turns, the session
    state one rerun of the script reads and writes, and what a rerun does to it.
    The class in module ChatSession performs these steps in place. */
module Conversation {
  import opened Wrappers
  import opened PyText
  import opened Backend

  datatype Role = AI | Human

  /** One entry of `chat_history`: `{"role": ..., "content": ..., "avatar": ...}`. */
  datatype Turn = Turn(role: Role, content: string, avatar: string)

  const AiIcon: string := "chatbot.png"
  const PeopleIcon: string := "user.png"
  const GreetingText: string := "Hello Sir!, How can I help you?"

  /** The single turn a fresh or cleared history holds. */
  const Greeting: Turn := Turn(AI, GreetingText, AiIcon)

  function HumanTurn(query: string): Turn { Turn(Human, query, PeopleIcon) }

  function AiTurn(reply: string): Turn { Turn(AI, reply, AiIcon) }

  /** The gate of the query branch: `user_query is not None and user_query.strip()`. */
  predicate Accepts(query: Option<string>): (ok: bool)
    ensures ok ==> query.Some? && query.value != []
  {
    query.Some? && Strip(query.value) != []
  }

  /** The two session keys the page uses; `None` is a key not yet set. */
  datatype State = State(history: Option<seq<Turn>>, forceRefresh: Option<bool>)

  /** What the user did on one rerun: whether "Clear Chat History" was clicked,
      what the chat input returned, and what the backend would answer if asked. */
  datatype Interaction = Interaction(clearClicked: bool, query: Option<string>, backend: Outcome)

  /** The state a brand-new browser session starts with: neither key is set. */
  const Fresh: State := State(None, None)

  /** The clear button: a single greeting, and the refresh flag flipped
      (an unset flag reads as false). */
  function Cleared(s: State): (r: State)
    ensures r.history == Some([Greeting])
    ensures r.forceRefresh.Some? && r.forceRefresh.value != s.forceRefresh.GetOr(false)
  {
    State(Some([Greeting]), Some(!s.forceRefresh.GetOr(false)))
  }

  /** Seeds the history when it is absent; an existing history is kept as it is. */
  function Initialised(s: State): (r: State)
    ensures r.history.Some? && r.forceRefresh == s.forceRefresh
    ensures s.history.Some? ==> r == s
  {
    if s.history.None? then s.(history := Some([Greeting])) else s
  }

  /** The query branch: an accepted query appends its Human turn and then the
      AI turn holding the normalised reply; anything else changes nothing. */
  function Queried(s: State, query: Option<string>, backend: Outcome): State
    requires s.history.Some?
  {
    if Accepts(query) then
      s.(history := Some(s.history.value + [HumanTurn(query.value), AiTurn(NormaliseReply(backend))]))
    else s
  }

  /** One rerun of the script, in the script's order: clear, seed, query. */
  function NextState(s: State, e: Interaction): State {
    Queried(Initialised(if e.clearClicked then Cleared(s) else s), e.query, e.backend)
  }

  /** The state after a series of reruns. */
  function Replay(s: State, events: seq<Interaction>): (r: State)
    ensures events != [] ==> r.history.Some?
    ensures events != [] && s.history.None? ==> r.history.value != [] && r.history.value[0] == Greeting
    decreases |events|
  {
    if events == [] then s else NextState(Replay(s, events[..|events| - 1]), events[|events| - 1])
  }

  /** A question together with the reply text shown for it. */
  datatype Exchange = Exchange(query: string, reply: string)

  /** The turns the exchanges add to the history: Human then AI, for each. */
  function Pairs(xs: seq<Exchange>): seq<Turn> {
    if xs == [] then [] else Pairs(xs[..|xs| - 1]) + [HumanTurn(xs[|xs| - 1].query), AiTurn(xs[|xs| - 1].reply)]
  }

  /** Whether the clear button was clicked in any of the reruns. */
  predicate ClearedIn(events: seq<Interaction>) {
    events != [] && (events[|events| - 1].clearClicked || ClearedIn(events[..|events| - 1]))
  }

  /** How many of the reruns clicked the clear button. */
  function ClearCount(events: seq<Interaction>): nat {
    if events == [] then 0
    else ClearCount(events[..|events| - 1]) + (if events[|events| - 1].clearClicked then 1 else 0)
  }

  /** The exchange one rerun contributes: one if its query is accepted, none otherwise. */
  function Added(e: Interaction): seq<Exchange> {
    if Accepts(e.query) then [Exchange(e.query.value, NormaliseReply(e.backend))] else []
  }

  /** The exchanges accepted since the last clear (all of them if there was none), in order. */
  function Kept(events: seq<Interaction>): seq<Exchange> {
    if events == [] then []
    else
      var e := events[|events| - 1];
      (if e.clearClicked then [] else Kept(events[..|events| - 1])) + Added(e)
  }

  /** What the history starts from: the greeting after a clear, else the
      history that was there (or the greeting if there was none). */
  function Base(s: State, events: seq<Interaction>): seq<Turn> {
    if ClearedIn(events) then [Greeting] else s.history.GetOr([Greeting])
  }

  /** A well-formed transcript: the greeting first, then Human and AI turns in
      alternation, every Human turn holding a non-blank query. */
  predicate IsTranscript(h: seq<Turn>) {
    |h| % 2 == 1 && h[0] == Greeting &&
    forall i :: 0 < i < |h| ==>
      if i % 2 == 1 then h[i] == HumanTurn(h[i].content) && Strip(h[i].content) != []
      else h[i] == AiTurn(h[i].content)
  }

  // ----- the gate -----

  /** A query is accepted exactly when it is present and holds a non-whitespace character. */
  lemma AcceptsIffNonSpace(query: Option<string>)
    ensures Accepts(query) <==>
      query.Some? && exists i :: 0 <= i < |query.value| && !IsSpace(query.value[i])
  {
    if query.Some? {
      StripEmptyIffAllSpace(query.value);
    }
  }

  // ----- one operation at a time -----

  /** Clearing leaves the single greeting whatever came before; clearing twice
      gives the history of clearing once and puts the flag back. */
  lemma ClearIdempotent(s: State)
    ensures Cleared(s).history == Some([Greeting])
    ensures Cleared(Cleared(s)).history == Cleared(s).history
    ensures Cleared(s).forceRefresh == Some(!s.forceRefresh.GetOr(false))
    ensures Cleared(Cleared(s)).forceRefresh == Some(s.forceRefresh.GetOr(false))
  {
  }

  /** Seeding yields the single greeting when the history is absent, keeps a
      present history untouched, and doing it again changes nothing. */
  lemma InitialiseSeeds(s: State)
    ensures s.history.None? ==> Initialised(s).history == Some([Greeting])
    ensures s.history.Some? ==> Initialised(s) == s
    ensures Initialised(s).forceRefresh == s.forceRefresh
    ensures Initialised(Initialised(s)) == Initialised(s)
  {
  }

  /** A missing, empty or all-whitespace query leaves the state unchanged. */
  lemma BlankQueryIsNoOp(s: State, query: Option<string>, backend: Outcome)
    requires s.history.Some?
    requires query.None? || forall i :: 0 <= i < |query.value| ==> IsSpace(query.value[i])
    ensures Queried(s, query, backend) == s
  {
    if query.Some? {
      StripEmptyIffAllSpace(query.value);
    }
  }

  /** An accepted query grows the history by exactly two and keeps the old
      prefix: the raw, untrimmed query as a Human turn, then the reply as an AI turn.
      The avatars are written out as literals to pin the icon file names. */
  lemma AcceptedQueryAppendsPair(s: State, query: string, backend: Outcome)
    requires s.history.Some? && Strip(query) != []
    ensures var h := s.history.value;
      var r := Queried(s, Some(query), backend).history;
      r.Some? && |r.value| == |h| + 2 && r.value[..|h|] == h &&
      r.value[|h|] == Turn(Human, query, "user.png") &&
      r.value[|h| + 1] == Turn(AI, NormaliseReply(backend), "chatbot.png")
    ensures Queried(s, Some(query), backend).forceRefresh == s.forceRefresh
  {
    var h := s.history.value;
    assert (h + [HumanTurn(query), AiTurn(NormaliseReply(backend))])[..|h|] == h;
  }

  /** A rerun keeps a well-formed transcript well formed, and seeds one if there was none. */
  lemma NextStatePreservesTranscript(s: State, e: Interaction)
    requires s.history.Some? ==> IsTranscript(s.history.value)
    ensures NextState(s, e).history.Some? && IsTranscript(NextState(s, e).history.value)
  {
    var t := Initialised(if e.clearClicked then Cleared(s) else s);
    var h := t.history.value;
    assert IsTranscript(h);
    if Accepts(e.query) {
      var r := h + [HumanTurn(e.query.value), AiTurn(NormaliseReply(e.backend))];
      assert NextState(s, e).history.value == r;
      forall i | 0 < i < |r|
        ensures if i % 2 == 1 then r[i] == HumanTurn(r[i].content) && Strip(r[i].content) != []
                else r[i] == AiTurn(r[i].content)
      {
        if i < |h| {
          assert r[i] == h[i];
        } else if i == |h| {
          assert i % 2 == 1;
        } else {
          assert i % 2 == 0;
        }
      }
    }
  }

  // ----- many reruns -----

  lemma {:induction false} PairsAppend(xs: seq<Exchange>, ys: seq<Exchange>)
    ensures Pairs(xs + ys) == Pairs(xs) + Pairs(ys)
    decreases |ys|
  {
    if ys == [] {
      assert xs + ys == xs;
    } else {
      var ys' := ys[..|ys| - 1];
      assert (xs + ys)[..|xs + ys| - 1] == xs + ys';
      PairsAppend(xs, ys');
    }
  }

  /** The turns of the exchanges, two per exchange, at their positions. */
  lemma {:induction false} PairsAt(xs: seq<Exchange>)
    ensures |Pairs(xs)| == 2 * |xs|
    ensures forall i :: 0 <= i < |xs| ==>
      Pairs(xs)[2 * i] == HumanTurn(xs[i].query) && Pairs(xs)[2 * i + 1] == AiTurn(xs[i].reply)
  {
    if xs != [] {
      var xs' := xs[..|xs| - 1];
      PairsAt(xs');
      forall i | 0 <= i < |xs|
        ensures Pairs(xs)[2 * i] == HumanTurn(xs[i].query) && Pairs(xs)[2 * i + 1] == AiTurn(xs[i].reply)
      {
        if i < |xs'| {
          assert xs[i] == xs'[i];
        }
      }
    }
  }

  /** After any non-empty series of reruns the history is the greeting (after
      the last clear) or the earlier history, followed by the Human/AI pair of
      every query accepted since, in submission order. */
  lemma {:induction false} ReplayShape(s: State, events: seq<Interaction>)
    requires events != []
    ensures Replay(s, events).history == Some(Base(s, events) + Pairs(Kept(events)))
    decreases |events|
  {
    var prefix := events[..|events| - 1];
    var e := events[|events| - 1];
    var before := Replay(s, prefix);
    var added := Added(e);
    var start := if e.clearClicked then [Greeting] else before.history.GetOr([Greeting]);
    assert Replay(s, events).history == Some(start + Pairs(added)) by {
      NextStateHistory(before, e);
    }
    assert Kept(events) == (if e.clearClicked then [] else Kept(prefix)) + added;
    if e.clearClicked {
      assert Kept(events) == added;
    } else if prefix == [] {
      assert before == s && !ClearedIn(prefix);
      assert Kept(events) == added;
    } else {
      assert start == Base(s, prefix) + Pairs(Kept(prefix)) by {
        ReplayShape(s, prefix);
      }
      PairsAppend(Kept(prefix), added);
      assert Base(s, events) == Base(s, prefix);
      assert Kept(events) == Kept(prefix) + added;
      assert start + Pairs(added) == Base(s, events) + Pairs(Kept(events));
    }
  }

  /** One rerun in terms of the history: start from the greeting after a
      clear (else from the history, seeded if absent), then add the pair of an
      accepted query. */
  lemma NextStateHistory(s: State, e: Interaction)
    ensures NextState(s, e).history ==
      Some((if e.clearClicked then [Greeting] else s.history.GetOr([Greeting])) + Pairs(Added(e)))
  {
    var t := Initialised(if e.clearClicked then Cleared(s) else s);
    assert t.history.value == (if e.clearClicked then [Greeting] else s.history.GetOr([Greeting]));
    if Accepts(e.query) {
      assert Added(e)[..0] == [];
      assert Pairs(Added(e)) == [HumanTurn(e.query.value), AiTurn(NormaliseReply(e.backend))];
    } else {
      assert Pairs(Added(e)) == [];
      assert NextState(s, e) == t;
      var x := t.history.value;
      assert x + [] == x;
    }
  }

  /** The refresh flag records the parity of the clears: untouched without
      one, otherwise the initial value (unset reads as false) flipped once per clear. */
  lemma {:induction false} ReplayFlag(s: State, events: seq<Interaction>)
    ensures Replay(s, events).forceRefresh ==
      if ClearCount(events) == 0 then s.forceRefresh
      else Some(s.forceRefresh.GetOr(false) != (ClearCount(events) % 2 == 1))
    decreases |events|
  {
    if events != [] {
      ReplayFlag(s, events[..|events| - 1]);
    }
  }

  /** Every rerun submits a query the gate accepts, and none clicks clear. */
  predicate OnlyAcceptedQueries(events: seq<Interaction>) {
    events == [] ||
    (OnlyAcceptedQueries(events[..|events| - 1]) &&
     !events[|events| - 1].clearClicked && Accepts(events[|events| - 1].query))
  }

  /** From a fresh session, N reruns that each submit an accepted query (and
      no clear) leave 1 + 2N turns: the greeting, then query i verbatim as a
      Human turn at 2i + 1 and its reply as an AI turn at 2i + 2. */
  lemma {:induction false} ConversationFromFresh(events: seq<Interaction>)
    requires events != [] && OnlyAcceptedQueries(events)
    ensures var h := Replay(Fresh, events).history;
      h.Some? && |h.value| == 1 + 2 * |events| && h.value[0] == Greeting &&
      forall i :: 0 <= i < |events| ==>
        h.value[2 * i + 1] == HumanTurn(h.value[2 * i + 1].content) &&
        events[i].query == Some(h.value[2 * i + 1].content) &&
        h.value[2 * i + 2] == AiTurn(NormaliseReply(events[i].backend))
  {
    var xs := Kept(events);
    var h := [Greeting] + Pairs(xs);
    assert Replay(Fresh, events).history == Some(h) by {
      ReplayShape(Fresh, events);
      NoClear(events);
    }
    KeptAll(events);
    GreetingThenPairs(xs);
    forall i | 0 <= i < |events|
      ensures h[2 * i + 1] == HumanTurn(h[2 * i + 1].content)
      ensures events[i].query == Some(h[2 * i + 1].content)
      ensures h[2 * i + 2] == AiTurn(NormaliseReply(events[i].backend))
    {
      var x := xs[i];
      assert Some(x.query) == events[i].query && x.reply == NormaliseReply(events[i].backend);
      assert h[2 * i + 1] == HumanTurn(x.query);
      assert h[2 * i + 2] == AiTurn(x.reply);
    }
  }

  /** The greeting followed by the exchanges' pairs: 1 + 2N turns, exchange i
      at positions 2i + 1 and 2i + 2. */
  lemma GreetingThenPairs(xs: seq<Exchange>)
    ensures |[Greeting] + Pairs(xs)| == 1 + 2 * |xs| && ([Greeting] + Pairs(xs))[0] == Greeting
    ensures forall i :: 0 <= i < |xs| ==>
      ([Greeting] + Pairs(xs))[2 * i + 1] == HumanTurn(xs[i].query) &&
      ([Greeting] + Pairs(xs))[2 * i + 2] == AiTurn(xs[i].reply)
  {
    PairsAt(xs);
    var h := [Greeting] + Pairs(xs);
    forall i | 0 <= i < |xs|
      ensures h[2 * i + 1] == HumanTurn(xs[i].query) && h[2 * i + 2] == AiTurn(xs[i].reply)
    {
      assert h[2 * i + 1] == Pairs(xs)[2 * i];
      assert h[2 * i + 2] == Pairs(xs)[2 * i + 1];
    }
  }

  /** Every state reachable from a fresh session holds a well-formed
      transcript, so the history is never empty once it has been seeded. */
  lemma {:induction false} ReachableIsTranscript(events: seq<Interaction>)
    requires events != []
    ensures Replay(Fresh, events).history.Some? && IsTranscript(Replay(Fresh, events).history.value)
    decreases |events|
  {
    var prefix := events[..|events| - 1];
    if prefix != [] {
      ReachableIsTranscript(prefix);
    }
    NextStatePreservesTranscript(Replay(Fresh, prefix), events[|events| - 1]);
  }

  /** Without clears, every accepted query is kept, one exchange per rerun. */
  lemma {:induction false} KeptAll(events: seq<Interaction>)
    requires OnlyAcceptedQueries(events)
    ensures |Kept(events)| == |events|
    ensures forall i :: 0 <= i < |events| ==>
      Some(Kept(events)[i].query) == events[i].query &&
      Kept(events)[i].reply == NormaliseReply(events[i].backend)
    decreases |events|
  {
    if events != [] {
      var prefix := events[..|events| - 1];
      KeptAll(prefix);
      assert Kept(events) == Kept(prefix) + Added(events[|events| - 1]);
      forall i | 0 <= i < |prefix|
        ensures Some(Kept(events)[i].query) == events[i].query
        ensures Kept(events)[i].reply == NormaliseReply(events[i].backend)
      {
        assert events[i] == prefix[i];
      }
    }
  }

  /** A series of accepted queries contains no clear. */
  lemma {:induction false} NoClear(events: seq<Interaction>)
    requires OnlyAcceptedQueries(events)
    ensures !ClearedIn(events)
    decreases |events|
  {
    if events != [] {
      NoClear(events[..|events| - 1]);
    }
  }
}
