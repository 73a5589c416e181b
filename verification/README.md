# Screenpass chat: a Dafny model of its deterministic rules

Screenpass is a browser chat widget in which a trucking-job applicant talks to
an AI screening agent. The server (`ServerModule1.py`) keeps one in-memory
session per conversation. When a conversation ends, it turns the language
model's replies into recorded analytics: a sentiment score, a qualification
decision with a reason, and a file-name tag built from the start and end
times. The browser form (`ChatForm/__init__.py`) reads the lead source and
company from the URL hash. It caps the input box at 1000 characters, keeps
the transcript as `>{speaker}: {message}` lines, and tracks whether the
conversation is still active.

This project models those rules as pure functions over immutable data and
proves what they guarantee. Language-model replies, the current time, the
loaded configuration, the outcome of every server call and the applicant's
answer to the confirmation dialog are all parameters.

Modules, one file each:

- `Wrappers` (wrappers.dfy): `Option`, standing in for `None` and `dict.get`.
- `Text` (text.dfy): ASCII `lower`/`upper`, `strip`, `in`, `replace(tok, "")`, one-character `split`, `join` and slicing, with their characterising lemmas.
- `Decimal` (decimal.dfy): `str(n)`, zero-padded `strftime` fields, and `int(s)`.
- `Companies` (companies.dfy): company selection.
- `Analysis` (analysis.dfy): the sentiment score and the qualification decision.
- `Timestamps` (timestamps.dfy): the `%Y%m%d_%H%M%S_%Y%m%d_%H%M%S` tag and its inverse.
- `Sessions` (sessions.dfy): the session map and the three server handlers.
- `UrlHash` (url_hash.dfy): URL-hash parsing and the defaults.
- `ChatForm` (chat_form.dfy): the browser's transcript, input box and `conversation_active` flag as a state machine.
- `Conversation` (conversation.dfy): one browser turn composed with the server handler.

A reply containing both `QUALIFIED` and `NOT_QUALIFIED` is recorded as not
qualified, because the same condition also tests `'NOT_QUALIFIED' not in`
(ServerModule1.py line 413); see `Analysis.NegationNeverQualifies`.

## Model

| member | source | states |
|---|---|---|
| Companies.SelectCompany | ScreenpassChat/server_code/ServerModule1.py:51-61 | companyB is chosen exactly when the name is present and lower-cases to "companyb"; `None` and the empty name get companyA |
| Companies.GetCompanyConfig | ScreenpassChat/server_code/ServerModule1.py:51-61 | a name that lower-cases to "companyb" gets companyB's configuration; every other name, the empty name and `None` get companyA's |
| Companies.SelectsCompanyB | ScreenpassChat/server_code/ServerModule1.py:55-61 | companyB is chosen exactly for the 8-character names that spell "companyb" with each letter in either case; every other name, `None` included, falls back to companyA |
| Companies.LowerMatches | ScreenpassChat/server_code/ServerModule1.py:55-57 | a name lower-cases to a lower-case key exactly when it spells that key position by position in either case |
| Analysis.SentimentScore | ScreenpassChat/server_code/ServerModule1.py:380-385 | the score is always in 1..5; a stripped reply reading as an integer in 1..5 keeps that value; the score differs from 3 only when the stripped reply reads as that score |
| Analysis.SentimentOfNumber | ScreenpassChat/server_code/ServerModule1.py:380-385 | a reply that is one integer wrapped in any whitespace is recorded as that integer when it is in 1..5 and as exactly 3 otherwise |
| Analysis.ParseDecision | ScreenpassChat/server_code/ServerModule1.py:413-418 | qualified exactly when the upper-cased reply contains QUALIFIED and not NOT_QUALIFIED; the reason is the reply with the matching token deleted (case-sensitively), then stripped |
| Analysis.NegationNeverQualifies | ScreenpassChat/server_code/ServerModule1.py:413-418 | any reply containing NOT_QUALIFIED is not qualified, even when QUALIFIED also appears; its reason is the reply with the NOT_QUALIFIED tokens deleted, stripped |
| Analysis.NegationAnyCase | ScreenpassChat/server_code/ServerModule1.py:413 | a negation token in any letter case prevents a qualified decision |
| Analysis.CaseSensitiveReason | ScreenpassChat/server_code/ServerModule1.py:413-415 | when QUALIFIED appears only in lower or mixed case, the decision is qualified and the reason is the whole stripped reply, token included |
| Analysis.SpacedNegationQualifies | ScreenpassChat/server_code/ServerModule1.py:413-415 | the reply "NOT QUALIFIED" (space, not underscore) is recorded as qualified with reason "NOT" |
| Analysis.RecordedReason | ScreenpassChat/server_code/ServerModule1.py:428 | the logged reason is the first min(100, length) characters of the reason: unchanged when at most 100 long, its 100-character prefix otherwise |
| Text.StripExact | ScreenpassChat/server_code/ServerModule1.py:381 | `strip()` removes exactly the surrounding whitespace: whitespace wrapped around a core with non-space ends strips back to that core |
| Text.RemoveAllIdentity | ScreenpassChat/server_code/ServerModule1.py:415 | `replace(tok, "")` leaves the text unchanged exactly when the token does not occur in it |
| Decimal.ParseShowInt | ScreenpassChat/server_code/ServerModule1.py:381 | `int(str(i)) == i` for every integer of at most 4300 digits (the model itself has no digit limit), and a leading `+` is also accepted |
| Decimal.ParseInt | ScreenpassChat/server_code/ServerModule1.py:381 | `int(s)` succeeds exactly on an optional sign followed by at least one ASCII digit; every other text in that alphabet is the `ValueError` case |
| Decimal.PadValue | ScreenpassChat/server_code/ServerModule1.py:327 | reading back a zero-padded numeric field gives the number written |
| Timestamps.Stamp | ScreenpassChat/server_code/ServerModule1.py:327 | `strftime("%Y%m%d_%H%M%S")` gives 15 characters: eight digits, `_`, six digits |
| Timestamps.Tag | ScreenpassChat/server_code/ServerModule1.py:327 | the tag is 31 characters: the 15-character start stamp, `_`, the 15-character end stamp |
| Timestamps.StampRoundTrip | ScreenpassChat/server_code/ServerModule1.py:327 | a stamp reads back as its time with the microseconds dropped |
| Timestamps.TagRoundTrip | ScreenpassChat/server_code/ServerModule1.py:327 | a tag reads back as both times, to the second |
| Timestamps.TagCollision | ScreenpassChat/server_code/ServerModule1.py:327-328 | two conversations share a tag exactly when their start times agree to the second and so do their end times |
| Sessions.InitConversation | ScreenpassChat/server_code/ServerModule1.py:188-203 | the id is mapped to a new session with empty history, the current time as start time, the given lead source and company, and the selected company's configuration, replacing any earlier one; every other id is untouched; the greeting is returned with success |
| Sessions.ProcessPrompt | ScreenpassChat/server_code/ServerModule1.py:220-233 | an unknown id fails with the refresh advice and leaves the map unchanged; a known id gets exactly the supplied history, with all other fields and sessions unchanged, and the context is built from the last lines |
| Sessions.ContextWindowLines | ScreenpassChat/server_code/ServerModule1.py:233 | for a non-empty history in which no line holds a line break, the context `Context` builds splits back at line breaks into exactly the last min(10, n) lines, in order |
| Sessions.SummarizeConversation | ScreenpassChat/server_code/ServerModule1.py:312-443 | success exactly when the writes succeed; then the id is absent and every other session unchanged, whether or not the id was present; both files are named by the start/end tag, the transcript and summary are written as given, the sentiment row holds the parsed score and the tag, and the decision row holds the parsed decision with its reason cut to its first 100 characters; on failure nothing changes |
| Sessions.SummaryIgnoresStore | ScreenpassChat/server_code/ServerModule1.py:312-320 | what a summary records is the same whether the session existed or not |
| Sessions.SummarizeTwice | ScreenpassChat/server_code/ServerModule1.py:327-435 | summarizing the same id twice succeeds both times, and the two transcript files share a name exactly when the times agree to the second |
| Sessions.ProcessTurns | ScreenpassChat/server_code/ServerModule1.py:220-230 | after a run of turns the session holds the last turn's history (overwrite, not append), and every other session is unchanged |
| Sessions.Lifecycle | ScreenpassChat/server_code/ServerModule1.py:188-435 | initialize, any number of turns, then summarize: every turn succeeds, the last history is the last one sent, and the final map is the initial map without the id |
| Text.SplitJoin | ScreenpassChat/client_code/ChatForm/__init__.py:73 | splitting a `&`-join of `&`-free segments gives back the segments |
| Text.JoinSplit | ScreenpassChat/client_code/ChatForm/__init__.py:73 | re-joining the pieces of a split with the separator restores the text |
| UrlHash.CollectSpec | ScreenpassChat/client_code/ChatForm/__init__.py:73-76 | for `Collect`, the loop over the `&`-segments: a key is present exactly when some segment with `=` has it before its first `=`; its value is everything after the first `=` of the last such segment |
| UrlHash.HashParams | ScreenpassChat/client_code/ChatForm/__init__.py:64-86 | an empty hash gives no parameters; otherwise the result holds only `leadSource` and `company`, each present exactly when `ParseHash` found it, with the parsed value |
| UrlHash.InitFromParams | ScreenpassChat/client_code/ChatForm/__init__.py:106-107 | a missing lead source becomes "direct" and a missing company "companyA"; present values are used verbatim |
| UrlHash.LeadSourceFromHash | ScreenpassChat/client_code/ChatForm/__init__.py:73-107 | the lead source is the value of the last segment binding `leadSource`, or "direct" when none does |
| UrlHash.CompanyFromHash | ScreenpassChat/client_code/ChatForm/__init__.py:73-107 | the company is the value of the last segment binding `company`, or "companyA" when none does |
| UrlHash.HashRoundTrip | ScreenpassChat/client_code/ChatForm/__init__.py:16-18 | the hash `leadSource=<a>&company=<b>` yields exactly `a` and `b` for `&`-free values, `=` inside values included |
| ChatForm.UpdateCharCount | ScreenpassChat/client_code/ChatForm/__init__.py:45-52 | the input ends at most 1000 long: unchanged when it fits, its 1000-character prefix otherwise; the counter shows the resulting length |
| ChatForm.UpdateCharCountIdempotent | ScreenpassChat/client_code/ChatForm/__init__.py:49-52 | a second counter update changes nothing |
| ChatForm.InitialConsistent | ScreenpassChat/client_code/ChatForm/_template.py:41 | the template's starting counter text matches the empty input |
| ChatForm.AddMessage | ScreenpassChat/client_code/ChatForm/__init__.py:138-140 | exactly one line `>{speaker}: {message}` is appended and earlier lines are unchanged |
| ChatForm.LineRoundTrip | ScreenpassChat/client_code/ChatForm/__init__.py:140 | a line built by `Line` as `>{speaker}: {message}` reads back as its speaker and message when the speaker name has no colon |
| ChatForm.StartConversation | ScreenpassChat/client_code/ChatForm/__init__.py:119-136 | exactly one greeting line is appended on every path: the server's message on success, an empty message when a successful response has none, the built-in welcome when a failed response has no message or the call raised |
| ChatForm.SubmitQuery | ScreenpassChat/client_code/ChatForm/__init__.py:179-212 | `WillSubmit` fails (blank stripped input or an ended conversation) and nothing changes; otherwise one Trucker line with the stripped text and then one Screenpass line are appended, the input is cleared and the counter reset. The Screenpass line is `ReplyText`: the server's message on success (empty when it has none), the built-in apology when the server failed or the call raised |
| ChatForm.EndChat | ScreenpassChat/client_code/ChatForm/__init__.py:215-263 | nothing happens when the conversation has ended or is not confirmed; otherwise it ends and exactly one closing line is appended, on the success and the failure path alike |
| ChatForm.Step | ScreenpassChat/client_code/ChatForm/__init__.py:179-263 | no event re-activates an ended conversation, only a confirmed end request ends one, the transcript only grows, and the counter stays consistent with the capped input |
| ChatForm.Run | ScreenpassChat/client_code/ChatForm/__init__.py:215-224 | over any sequence of events the same holds: an ended conversation stays ended, the transcript keeps its prefix, and an active one ends only through a confirmed end request |
| ChatForm.EndedStaysEnded | ScreenpassChat/client_code/ChatForm/__init__.py:217-224 | once `conversation_active` is false, no continuation sets it back to true, and the transcript only grows |
| Conversation.TurnRoundTrip | ScreenpassChat/client_code/ChatForm/__init__.py:197-207 | after one turn, the server's stored history equals the browser's transcript minus the agent's newest line; on an unknown session the map is unchanged and the browser shows its own apology, never the refresh advice |
| Conversation.OpeningGreeting | ScreenpassChat/client_code/ChatForm/__init__.py:119-140 | opening a chat shows the server's greeting as one line that reads back as (Screenpass, greeting), while the new session's history stays empty; a raised call shows the built-in welcome |
| Conversation.SubmittedLinesReadBack | ScreenpassChat/client_code/ChatForm/__init__.py:187-205 | the two lines a turn appends read back as (Trucker, stripped input) and (Screenpass, reply text) |

## Left out

- `call_llm`: it makes an HTTP request or picks a random canned reply. Replies are parameters.
- `load_config`: it reads JSON files and falls back to built-in defaults. The loaded configuration is the `Configs` parameter. The `.get('companyA', default)` fallback at ServerModule1.py:61 is therefore not modelled: every configuration holds a companyA entry.
- The system and user prompt text (ServerModule1.py:140-185, 235-287, 343-408): string interpolation into prose.
- File and CSV writes, `os.makedirs`, and `datetime.now()`. Their only modelled effects are the paths, the transcript lines, the summary text and the log rows. The header lines of the two text files and the ISO write-time column of each log row are left out. A failed write is one boolean; the model does not track which files were already written when it fails.
- Concurrency on the shared session dictionary: the model covers sequential calls only.
- The dictionary branch of `get_hash_params` and its exception path: only a string hash is modelled. URL decoding by the hosting framework is not modelled.
- `show_status`, `set_loading`, the status auto-hide timer, button enabling, and the chat display string: presentation only.
- Sessions.InitConversation: does not model the exception path (a server configuration without `initial_prompt` or `agent_role`, or a failing `format`). Every statement that can raise there runs before the session is stored at ServerModule1.py:188, and `call_llm` afterwards catches its own errors. So on that path the map is unchanged and the handler returns the built-in welcome with success false.
- Sessions.ProcessPrompt: does not model an exception raised after the history is overwritten (a configuration without `agent_role`). That path reports failure but keeps the overwritten history.
- Decimal.ParseInt: `int()` is modelled for an optional sign followed by ASCII digits. Underscore separators, surrounding whitespace and non-ASCII digits, which Python also accepts, are left out, so on such text the model reports failure where Python returns a number. Conversely, the model has no digit limit: Python 3.11 and later (and the matching security releases of 3.7-3.10) raise `ValueError` for `int()` on more than 4300 digits, leading zeros included, and for `str()` of such an integer. There `int()` succeeds in the model, so a stripped reply of 4300 zeros followed by `5` scores 5 where Python records 3. Replies are capped at 500 tokens (ServerModule1.py:86), far below that length.
- Analysis.SentimentScore: inherits the `int()` restriction of `Decimal.ParseInt` and the ASCII-only `strip()` of `Text.Strip`: non-ASCII whitespace around the number is not removed.
- Text.StripExact: `strip()` is modelled (as `Text.Strip`) to remove ASCII whitespace only (space, 9-13, 28-31), not the other Unicode whitespace Python also removes.
- ChatForm.SubmitQuery: the submit guard strips with the ASCII-only `Text.Strip`, so an input made only of non-ASCII whitespace (U+00A0, U+3000) is submitted as a Trucker line in the model, where the page treats it as blank and sends nothing.
- Companies.SelectCompany: `lower()` is modelled on ASCII letters only. A non-ASCII letter that Python lower-cases into ASCII (such as the Kelvin sign to `k`) is not matched.
- Analysis.ParseDecision: `upper()` is modelled on ASCII letters only. Python's `upper()` also maps non-ASCII letters, some into ASCII ones (`ﬁ` to `FI`, `ſ` to `S`), which could make a token appear that the model does not see.
- Timestamps.Tag: `%Y` is modelled as four zero-padded digits, as Python documents it. Some C libraries print years below 1000 without padding. A tag is built from times at which the chat runs, so this never matters in practice.
