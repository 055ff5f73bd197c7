# Chat session model of the Growthvision Pathum chatbot page

The chat page (`run_chat` in `chat.py`) is a Streamlit script. Each time the
user interacts with it, the script runs from top to bottom against the
browser session's `st.session_state`. The page keeps two keys there:

- `chat_history` is the list of turns. Each turn has a role, a content and an avatar.
- `force_refresh` is a flag that the clear button flips.

One run of the script does three things to this state, in this order:

1. If "Clear Chat History" was clicked, the history is replaced by the single
   greeting turn and the flag is negated. An absent flag counts as false.
2. If the history key is absent, it is seeded with the same greeting.
3. If the chat input holds a query that is not `None` and not empty after
   `strip()`, two turns are appended. First comes the query, untrimmed, as a
   Human turn. Then the backend is asked, and its reply goes in an AI turn.

`ask_api_backend` turns the outcome of the POST to the answering service into
display text. It never raises, provided a 200 body is a JSON object (see
"Left out"):

- a 200 reply shows its `answer` verbatim, or `No response from API.` when there is none;
- any other status shows `Error: <code> - <body>`;
- a `RequestException` shows `Error connecting to API: <message>`.

The project has five modules:

- `Wrappers` (wrappers.dfy): the `Option` datatype.
- `PyText` (pytext.dfy): the Python string built-ins the page relies on. These are
  `str.strip()` without arguments and `str(int)` in an f-string. `IsSpace`
  defines the set of characters `strip()` removes. `Contains` is Python's
  substring test, used only to state what the error texts contain.
- `Backend` (backend.dfy): the outcome datatype, the reply normaliser
  `NormaliseReply`, and parsers that read a reply back.
- `Conversation` (conversation.dfy): the turns and the session state as values.
  It defines one rerun as `NextState` and a series of reruns as `Replay`, with
  the lemmas about them.
- `ChatSession` (session.dfy): the class `Session`. Its fields `history` and
  `forceRefresh` are updated in place by methods, one per step of the script.
  `Session.Rerun` is proved to perform `Conversation.NextState`.

An absent session key is `None`. The HTTP call is a parameter: `SubmitQuery` and
`Rerun` receive the `Outcome` the service would produce for the query. It is
used only when the query passes the gate.

Only status 200 takes the success branch. Every other code, 201 and 204
included, takes the error branch (`chat.py:58`), so `Status` carries a code
other than 200.

The backend call happens inside one run of the script, between the two
appends (`chat.py:72-88`), so `SubmitQuery` performs both.

## Model

| member | source | states |
|---|---|---|
| `ChatSession.Session.constructor` | chat.py:50 | a new browser session has neither `chat_history` nor `force_refresh` set |
| `ChatSession.Session.ClearHistory` | chat.py:31-37 | the history becomes exactly the single AI greeting whatever it held; the flag becomes the negation of its old value, an absent flag reading as false |
| `ChatSession.Session.InitHistory` | chat.py:50-53 | an absent history becomes the single greeting; a present one and the flag are left unchanged |
| `ChatSession.Session.SubmitQuery` | chat.py:70-88 | an accepted query appends the raw query as a Human turn with `user.png`, then the normalised reply as an AI turn with `chatbot.png`; any other input leaves the state unchanged |
| `ChatSession.Session.Rerun` | chat.py:31-88 | one run of the script is clear, then seed, then query, in that order; the history is present afterwards; a well-formed transcript stays well formed and an absent history becomes one |
| `ChatSession.RerunIsolated` | chat.py:31-88 | a run in one session object leaves any other session object unchanged |
| `Conversation.Cleared` | chat.py:31-37 | the clear branch as a value: the history is exactly the single greeting and the flag, read with default false, is negated |
| `Conversation.Initialised` | chat.py:50-53 | the seeding step as a value: afterwards the history is present; a present history, and the flag, are left as they were |
| `Conversation.Accepts` | chat.py:71 | the query gate: the query is not `None` and its `strip()` is non-empty, so an accepted query is never empty |
| `Conversation.Queried` | chat.py:70-88 | the query branch as a value: an accepted query appends the raw query as a Human turn and the normalised reply as an AI turn; anything else returns the state unchanged (its properties are `AcceptedQueryAppendsPair` and `BlankQueryIsNoOp`) |
| `Conversation.NextState` | chat.py:31-88 | one run of the script as a value: clear if clicked, then seed, then the query branch (its properties are `NextStateHistory` and `NextStatePreservesTranscript`) |
| `Conversation.Replay` | chat.py:31-88 | the state after a series of runs, each applied to the state the one before left; after at least one run the history is present, and from an absent history it starts with the greeting |
| `Conversation.ReachableIsTranscript` | chat.py:50-88 | every state reached from a fresh session by one or more runs holds a well-formed transcript (greeting first, then Human and AI turns alternating, every Human turn non-blank) |
| `Backend.NormaliseReply` | chat.py:55-64 | the display text of an outcome: a 200 answer verbatim, `No response from API.` when it has none, for another status a text that starts with `Error: ` and ends with the body (the code in between is recovered by `StatusReplyRoundTrip`), `Error connecting to API: ` followed by the message for a transport failure |
| `PyText.Strip` | chat.py:71 | Python's `str.strip()`: never longer than its input, empty for the empty string (its full properties are the `Strip*` lemmas) |
| `Conversation.InitialiseSeeds` | chat.py:50-53 | seeding an absent history gives the single greeting; a present history is the identity case; seeding twice equals seeding once; the flag is untouched |
| `Conversation.ClearIdempotent` | chat.py:31-37 | clear gives the single greeting; clearing twice gives the same history as clearing once; two clears restore the flag's value, an absent flag reading as false |
| `Conversation.AcceptsIffNonSpace` | chat.py:71 | a query passes the gate if and only if it is not `None` and holds a character that is not whitespace |
| `Conversation.BlankQueryIsNoOp` | chat.py:70-71 | a `None`, empty or all-whitespace query leaves the whole state unchanged |
| `Conversation.AcceptedQueryAppendsPair` | chat.py:71-88 | an accepted query grows the history by exactly 2 and keeps the old prefix; the new turns are Human with the raw query and `user.png`, then AI with the normalised reply and `chatbot.png`; the flag is untouched |
| `Conversation.NextStateHistory` | chat.py:31-88 | one rerun starts from the greeting after a clear, otherwise from the old history or the seed; it then adds the pair of an accepted query |
| `Conversation.NextStatePreservesTranscript` | chat.py:31-88 | a rerun from an absent history or from a transcript leaves a transcript: the greeting first, then alternating Human and AI turns with their avatars, every Human turn non-blank; a transcript has odd length, so it is never empty |
| `Conversation.ReplayShape` | chat.py:31-88 | after any non-empty series of reruns, the history is a base followed by the pairs of all queries accepted since the last clear, in submission order; the base is the greeting after a clear, otherwise the earlier history, seeded if absent |
| `Conversation.ReplayFlag` | chat.py:37 | after any series of reruns, the flag is unchanged if there was no clear; otherwise it is its initial value (absent reads as false) flipped once per clear |
| `Conversation.ConversationFromFresh` | chat.py:50-88 | from a fresh session, N runs each submitting an accepted query leave exactly 1 + 2N turns: the greeting, then query i verbatim as a Human turn at 2i+1 and its reply as an AI turn at 2i+2 |
| `Conversation.PairsAt` | chat.py:72-88 | the exchanges add two turns each, the Human turn before the AI turn, at positions 2i and 2i+1 |
| `Backend.AnswerIsVerbatim` | chat.py:58-60 | a 200 reply with an `answer` shows that answer verbatim, an empty one included |
| `Backend.MissingAnswerFallback` | chat.py:60 | a 200 reply without `answer` shows `No response from API.` |
| `Backend.StatusReplyRoundTrip` | chat.py:61-62 | the text for a status other than 200 can be parsed back into exactly its status code and body, so distinct (code, body) pairs never display alike |
| `Backend.StatusReplyMentions` | chat.py:62 | the text for a rejected request contains the decimal status code and the body |
| `Backend.TransportReplyRoundTrip` | chat.py:63-64 | the text for a transport failure can be parsed back into exactly the exception's message |
| `Backend.TransportReplyMentions` | chat.py:63-64 | the text for a transport failure contains the exception's message |
| `Backend.StatusAndTransportDiffer` | chat.py:62-64 | a rejected request and a failed connection never produce the same text |
| `Backend.AnswerCanMimicAnyReply` | chat.py:56-64 | every displayed reply, error texts included, is also what some genuine answer would display, so the transcript cannot tell errors from answers |
| `PyText.StripEmptyIffAllSpace` | chat.py:71 | `s.strip()` is empty if and only if every character of `s` is whitespace |
| `PyText.StripIsInfix` | chat.py:71 | `s.strip()` is a contiguous part of `s` with only whitespace removed before and after it |
| `PyText.StripEnds` | chat.py:71 | `s.strip()` neither starts nor ends with whitespace |
| `PyText.StripIdempotent` | chat.py:71 | stripping twice equals stripping once |
| `PyText.StripLeadingSpec` | chat.py:71 | removing leading whitespace leaves a suffix that does not start with whitespace, and everything removed was whitespace |
| `PyText.StripTrailingSpec` | chat.py:71 | removing trailing whitespace leaves a prefix that does not end with whitespace, and everything removed was whitespace |
| `PyText.IntToDecimal` | chat.py:62 | `str(code)` is non-empty digits with no leading zero, preceded by `-` for a negative code |
| `PyText.NatToDecimal` | chat.py:62 | the decimal text of a natural number is non-empty digits with no leading zero |
| `PyText.DecimalRoundTrip` | chat.py:62 | reading the decimal text of a number gives the number back |

## Left out

- The HTTP request itself (`requests.post`, chat.py:57) and the hard-coded URL. The call is a parameter of type `Backend.Outcome`.
- JSON decoding failures are not modelled. A non-JSON 200 body raises at chat.py:59. From `requests` 2.27 on the exception is a `RequestException`, caught at chat.py:63, which a `Transport` outcome covers; with older versions it escapes. A JSON value that is not an object fails on `.get` at chat.py:60. The model assumes a JSON object whose `answer`, when present, is a string. Such a raise would happen after the Human turn was appended (chat.py:72), leaving a Human turn with no AI turn after it, a history that `Conversation.IsTranscript` excludes.
- The `str()` of a `RequestException` is taken as given. `Transport` carries that message text.
- All Streamlit rendering is left out. This covers the title, the expander text, the transcript loop, `chat_message`, `write`, `markdown`, the spinner and the avatar fallback used only for display (chat.py:66-68, 76-84).
- `force_refresh` is never read. The comment at chat.py:36 says flipping it forces a rerun, but writing a session-state key does not rerun a Streamlit script, so its stored value is its only effect, and that value is what the model keeps.
- The sidebar ingestion widgets (chat.py:14-27) are left out. Their buttons' results are discarded and nothing is sent anywhere.
- `main.py` (a two-way page selector) and `about_us.py` (static content) are not part of this model.
- Concurrency is not modelled. Within one run of the script everything is sequential. A run that stops between the Human append (chat.py:72) and the AI append (chat.py:86), for example because the user acts while the spinner is showing, leaves an unanswered Human turn; `Conversation.IsTranscript` excludes that history, and `Conversation.ReachableIsTranscript` holds only because every modelled run completes.
- `ChatSession.Session.SubmitQuery`: requires the history to be present. In the script it always runs after the seeding step, and the code would fail at `.append` otherwise.
