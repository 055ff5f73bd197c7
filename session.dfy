/** `st.session_state` as the chat page uses it: an object with the two keys
    `chat_history` and `force_refresh`, changed in place by one run of
    `run_chat`. Each browser session owns its own object, and every method
    here modifies only `this`, so one session never changes another. */
module ChatSession {
  import opened Wrappers
  import opened PyText
  import opened Backend
  import opened Conversation

  class Session {
    /** `st.session_state.chat_history`; `None` while the key is absent. */
    var history: Option<seq<Turn>>
    /** `st.session_state["force_refresh"]`; `None` while the key is absent. */
    var forceRefresh: Option<bool>

    /** The session as a value. */
    function Snapshot(): State
      reads this
    {
      State(history, forceRefresh)
    }

    /** A new browser session: neither key is set yet. */
    constructor ()
      ensures Snapshot() == Fresh
    {
      history := None;
      forceRefresh := None;
    }

    /** "Clear Chat History": the history becomes the single greeting whatever
        it held, and the refresh flag is flipped, an absent flag counting as false. */
    method ClearHistory()
      modifies this
      ensures history == Some([Greeting])
      ensures forceRefresh == Some(!old(forceRefresh).GetOr(false))
      ensures Snapshot() == Cleared(old(Snapshot()))
    {
      history := Some([Greeting]);
      forceRefresh := Some(!forceRefresh.GetOr(false));
    }

    /** Seeds the history with the greeting if the key is absent; a present
        history, and the flag, are left untouched. */
    method InitHistory()
      modifies this
      ensures old(history).None? ==> history == Some([Greeting])
      ensures old(history).Some? ==> history == old(history)
      ensures forceRefresh == old(forceRefresh)
      ensures Snapshot() == Initialised(old(Snapshot()))
    {
      if history.None? {
        history := Some([Greeting]);
      }
    }

    /** The chat input: a query that is present and not blank under `strip()`
        appends its raw text as a Human turn, then asks the backend and appends
        the reply as an AI turn; any other input changes nothing. `backend` is
        what the service answers to this query. */
    method SubmitQuery(query: Option<string>, backend: Outcome)
      requires history.Some?
      modifies this
      ensures Accepts(query) ==> history == Some(old(history).value
        + [HumanTurn(query.value), AiTurn(NormaliseReply(backend))])
      ensures !Accepts(query) ==> history == old(history)
      ensures forceRefresh == old(forceRefresh)
      ensures Snapshot() == Queried(old(Snapshot()), query, backend)
    {
      if query.Some? && Strip(query.value) != [] {
        ghost var h := history.value;
        history := Some(history.value + [HumanTurn(query.value)]);
        var reply := NormaliseReply(backend);
        history := Some(history.value + [AiTurn(reply)]);
        assert history.value == h + [HumanTurn(query.value), AiTurn(reply)];
      }
    }

    /** One run of the script: the clear button, then seeding, then the chat
        input, in that order. Afterwards the history is present; a well-formed
        transcript (never empty) stays well formed, and an absent history
        becomes one. */
    method Rerun(e: Interaction)
      modifies this
      ensures Snapshot() == NextState(old(Snapshot()), e)
      ensures history.Some?
      ensures old(history).Some? && IsTranscript(old(history).value) ==> IsTranscript(history.value)
      ensures old(history).None? ==> IsTranscript(history.value)
    {
      ghost var before := Snapshot();
      if e.clearClicked {
        ClearHistory();
      }
      InitHistory();
      SubmitQuery(e.query, e.backend);
      if before.history.None? || IsTranscript(before.history.value) {
        NextStatePreservesTranscript(before, e);
      }
    }
  }

  /** Two browser sessions are separate objects: a run of the script in one
      leaves the other exactly as it was. */
  method RerunIsolated(mine: Session, other: Session, e: Interaction)
    requires mine != other
    modifies mine
    ensures mine.Snapshot() == NextState(old(mine.Snapshot()), e)
    ensures other.Snapshot() == old(other.Snapshot())
  {
    mine.Rerun(e);
  }
}
