# Intelligent Procurement Agent — a Dafny model of its core

The system is a conversational procurement assistant. It classifies each user
message, stores facts and rules it is taught in a vector-searchable memory,
and runs a tool-using language-model agent. The agent looks up vendors,
compares costs with remembered limits, and asks for approval when a limit is
exceeded. This project models the deterministic logic under that glue:

- **the agent's orchestration** (`agent.dfy`). It covers intent
  classification with its keyword precedence and its fall-back to chat, and
  the single pending-order slot with approval handling. It also covers how
  the decision block is taken out of the agent's free text, and how the
  memory-consultation tool formats its answer. The agent object is an
  explicit state value (`AgentState`: the slot plus the memory collection)
  threaded through `ProcessMessage`.
- **the runner's event stream** (`events.dfy`), a tagged union with one case
  per shape the reply-accumulation loop distinguishes.
- **the memory layer** (`memory.dfy`). The collection is an append-only
  sequence of records (id, document, metadata, embedding). `Add`, `Search`
  and `GetAll` sit on top, with fact extraction and embedding as fallible
  oracles.
- **the configuration** (`config.dfy`): environment defaults, the
  `provider/model` strings and the start-up warning.
- **the tools** (`tools.dfy`): the case-insensitive vendor filter and the
  cost-against-limit check.
- shared pieces: `Option` and `Call` (the value a call returned, or the
  exception it raised) in `base.dfy`. The ASCII string primitives are in
  `text.dfy`: `lower`, `upper`, `strip`, `startswith`, substring `in`,
  `find`/`rfind`, `join` and `split`. The JSON values `json.loads` produces
  are in `json.dfy`, with Python truthiness, `dict.get` and the
  `AttributeError` raised by `.get` on a non-dict.

Every external call becomes a function-valued parameter. This covers the
classification and extraction completions, the embedder, the agent runner,
`json.loads` and the collection's nearest-neighbour query. A call that can
raise returns a `Call`. A fresh record id (`uuid4`) is a parameter. Python's
`None` in the pending slot is `JNull`, so `if self.pending_order:` is
`Truthy(pending)`. "Nothing is called" is stated as independence: the result
is the same for every oracle, including one that always fails.

Behaviour of the code worth knowing, all of it modelled as written:

- **Decision-block extraction.** `extract_json` hands `json.loads` the greedy
  span from the first `{` to the last `}` (src/agent.py:208-210;
  `ExtractJsonSpan`). A stray `{` in the prose before the block makes that
  span fail to parse, and the reply is then returned verbatim
  (src/agent.py:181-185).
- **Ingestion failure.** `process_message` does not catch an exception from
  `memory.add` (src/agent.py:117-118): it escapes the turn
  (`Outcome.Raised`), and the state is unchanged.
- **Search limit.** `search` passes `min(limit, count)` to the collection
  without checking the sign of `limit` (src/memory.py:103-106); what the
  collection does with a non-positive count is part of the query oracle.
- **Result order.** `search` keeps the collection's order
  (src/memory.py:112-128) and sorts nothing itself; the model promises
  nothing about the order.
- **Missing query lists.** A collection answer whose `metadatas` is `None`
  raises `TypeError` on the first document (src/memory.py:116); a missing or
  empty `distances` list gives score 0 (src/memory.py:117).

## Model

| member | source | states |
|---|---|---|
| `Agent.GetIntent` | src/agent.py:83-109 | With a truthy pending order the intent is APPROVAL_REPLY. Otherwise it is one of STORE_FACT, PROCUREMENT_REQUEST or CHAT, and CHAT when the classifier call raises. |
| `Agent.PendingIgnoresClassifier` | src/agent.py:87-88 | While an order is pending, every input and every classifier (a failing one included) gives APPROVAL_REPLY, so the model is never consulted. |
| `Agent.ClassificationPrecedence` | src/agent.py:104-107 | A reply containing STORE_FACT is STORE_FACT even if it also contains PROCUREMENT. Otherwise PROCUREMENT gives PROCUREMENT_REQUEST, and anything else CHAT. Stated on the unstripped reply: stripping never changes the label. |
| `Agent.HandleApproval` | src/agent.py:191-204 | The slot is empty afterwards on every path and memory is untouched. Approval confirms the `selected_vendor` of the order just cleared. Any other reply cancels. Approving with no dict in the slot raises AttributeError after the slot was cleared. |
| `Agent.ApprovalHasNoSpace` | src/agent.py:192 | An approving reply contains no whitespace: no trimming is done, so " yes" cancels. |
| `Agent.ApprovalIgnoresCase` | src/agent.py:192 | Upper-casing a reply never changes whether it approves. |
| `Agent.ApprovalExamples` | src/agent.py:192 | "y", "YES", "Ok" and "approve" approve. "no", " yes", "yeah" and "yes please" cancel. |
| `Agent.ExtractJson` | src/agent.py:206-213 | Nothing is extracted from text lacking a `{` or a `}`. |
| `Agent.ExtractJsonSpan` | src/agent.py:208-210 | When a `{` precedes a `}`, the parser receives exactly the span from the first `{` to the last `}`. |
| `Agent.ExtractJsonNoBlock` | src/agent.py:208-213 | If no `{` is followed later by a `}`, the result is None. |
| `Agent.ExtractJsonIgnoresProse` | src/agent.py:206-213 | Prose before the block (without `{`) and after it (without `}`), such as code fences, does not change what is parsed. |
| `Agent.DecisionTurn` | src/agent.py:165-185 | The agent path never touches memory. The slot changes only to hold an extracted block whose status is PAUSE_APPROVAL_NEEDED, and such a block always fills it with an approval request. |
| `Agent.RunAgent` | src/agent.py:124-189 | A runner exception becomes an error reply and leaves the state as it was. |
| `Agent.ProcessMessage` | src/agent.py:111-189 | A pending order is resolved by the next message, emptying the slot. The slot invariant (empty, or a pause decision) is preserved. Under the slot invariant, or from an empty slot, a raised turn leaves the state unchanged; approving while the slot holds a truthy non-dict raises after the slot was cleared, as `HandleApproval` states. Memory changes only on a successful STORE_FACT turn, by exactly one record whose document is the reported fact. |
| `Agent.IdleTransitions` | src/agent.py:117-189 | From an empty slot, the slot is filled iff the classifier does not say STORE_FACT, the runner returns, and the extracted block has status PAUSE_APPROVAL_NEEDED. It is then filled with that block. It stays empty on the STORE_FACT path, on a runner exception, and when no block is found. |
| `Agent.PauseThenResolve` | src/agent.py:167-204 | A pause fills the slot. The next message empties it again, restoring the exact prior state. It confirms the paused vendor on approval and cancels otherwise. |
| `Agent.ConsultMemory` | src/agent.py:20-29 | An empty memory gives "No specific rules found in memory.". That sentence appears iff the search found nothing. Otherwise the answer begins with "- " and the first fact. Search errors propagate. |
| `Agent.ConsultMemoryLines` | src/agent.py:29 | Splitting the answer on newlines gives one "- fact" line per result, in result order, when no fact contains a newline. |
| `Events.ResponseTextAppend` | src/agent.py:139-158 | `ResponseText` models the accumulation loop, with `EventText` giving one event's contribution (a string `content`, then the `text or ""` of each part, then the event's own `text`). The accumulated reply text of a concatenated event stream is the concatenation of the two streams' texts. |
| `Events.SilentEventsIgnored` | src/agent.py:140-158 | Events that carry no text (tool calls, empty parts, events without content or text) contribute nothing to the reply. |
| `Memory.ExtractFact` | src/memory.py:36-50 | The fact is the completion's content, stripped. A completion failure propagates. |
| `Memory.StoredMetadata` | src/memory.py:61-63 | Stored metadata keeps the caller's keys and values, and overwrites `original_input` with the user input. It also sets `timestamp` to the fixed placeholder. |
| `Memory.Add` | src/memory.py:52-73 | Succeeds iff extraction and then embedding of the fact succeed. It then appends exactly one record, leaves earlier records untouched, and returns the fact it stored. That record carries the fresh id, the merged metadata and the fact's embedding. Distinct ids stay distinct given a fresh id. |
| `Memory.AddThenGetAll` | src/memory.py:52-91 | After a successful add, `get_all` lists the earlier memories followed by the new fact with its merged metadata. |
| `Memory.GetAll` | src/memory.py:75-91 | One entry per stored record, in order, pairing the document and metadata of the same record. An empty store gives []. |
| `Memory.Reshape` | src/memory.py:108-130 | Hit `i` takes document `i`, metadata `i` and distance `i` of the first row. The score is 0 when no distances are returned. No documents (missing or empty) gives []. Missing metadatas raise `TypeError` as soon as there is a document to pair them with. A short metadata or distance row raises `IndexError`. |
| `Memory.Search` | src/memory.py:93-106 | An empty store gives [] for every embedder and collection. Only a non-empty store can fail, and an embedding failure propagates. Otherwise the collection is asked for `min(limit, count)` results. |
| `Memory.SearchWithinLimit` | src/memory.py:103-114 | If the collection honours `n_results`, search returns at most `min(limit, count)` hits, each carrying a stored document. |
| `Memory.SearchEmptyCallsNothing` | src/memory.py:95-97 | With nothing stored, search gives [] whichever embedder and collection it is handed: nothing is embedded or queried. |
| `Config.ModelString` | src/config.py:19-22 | An empty provider leaves the name unchanged. A name already carrying `provider/` is unchanged, so there is no double prefix. Otherwise the result is the name or `provider/name`, and always starts with `provider/` for a non-empty provider. |
| `Config.ModelStringAddsPrefix` | src/config.py:19-20 | A non-empty provider and a name without its prefix give `provider/name`. |
| `Config.ModelStringIdempotent` | src/config.py:18-22 | Normalising an already normalised string changes nothing. |
| `Config.Load` | src/config.py:14-41 | Both model strings follow the same rule from their own provider and name. A set variable is used as given, including the empty string, and an unset one takes its default (vertex_ai, gemini-1.5-pro, text-embedding-004, ./chroma_db). `GROQ_API_KEY` is present exactly when it is set. |
| `Config.EmptyProviderKeepsName` | src/config.py:14-22 | `LLM_PROVIDER` set to the empty string stays empty rather than defaulting, so the model string is the bare model name. |
| `Config.ModelStringsIndependent` | src/config.py:24-31 | The LLM string depends only on the LLM variables. The embedding string depends only on the embedding variables. |
| `Config.Validate` | src/config.py:43-47 | A warning is given iff the LLM provider is "groq" and the Groq key is unset or empty. |
| `Config.ValidateFromEnv` | src/config.py:14-47 | In terms of the environment: a warning iff LLM_PROVIDER is set to groq and GROQ_API_KEY is unset or empty. The defaults never warn. |
| `Tools.SearchVendors` | src/tools.py:7-14 | Every returned vendor matches the lowered query in its lowered product, and every matching input vendor is returned. Each vendor appears as many times as in the input when it matches, and never otherwise. The result is a subsequence of the input, in order. |
| `Tools.EmptyQueryKeepsAll` | src/tools.py:13 | An empty query returns the whole vendor list. |
| `Tools.QueryCaseIgnored` | src/tools.py:13 | Upper-casing the query never changes the result. |
| `Tools.CheckApproval` | src/tools.py:16-22 | Status PAUSE iff cost > limit, so cost == limit gives OK. A pause carries the cost and the limit it quotes. |

## Left out

- app.py (the Gradio UI and the memory table display) only calls the agent and is not modelled.
- The language-model completions, the embedding service and the agent runner are remote and nondeterministic. Each is an oracle function of its input that returns a value or raises. The prompts, and the embedding request's Ollama `api_base` option, are not modelled.
- The ADK wiring of the two tools into the agent is not modelled. The runner oracle stands for whatever the model does with them, so `ConsultMemory` is modelled on its own.
- Duck-typed event probing is a tagged union. An exception raised while reading one event (logged, with the loop continuing) is not modelled.
- The vector store's persistence, distance metric and ranking are not modelled. The query is an oracle over the current records, and the full scan returns records in insertion order, which the store does not guarantee.
- A failing write to the collection (`collection.add` raising) is not modelled: the append always succeeds once extraction and embedding have.
- `json.loads` is an abstract partial function (`parse`); `json.dumps` of the vendor matches is not modelled.
- The exact reply texts (emoji, Markdown, `str()` of JSON values) are not modelled. Each reply is a `Message` carrying the values the source interpolates.
- `get_mock_vendors` reads a file; the vendor list is a parameter. Vendor entries lacking a string `product` are not modelled.
- `print` and `logging` calls are side effects only. Loading `.env` is not modelled; the environment is a map.
- Lower-casing, upper-casing and whitespace stripping are ASCII only. Python's Unicode mappings, such as the Kelvin sign lowering to `k` or `ſ` upper-casing to `S`, can change a decision and are not modelled.
- Memory.Add: the source mutates a caller-supplied metadata dict in place; the model returns the merged map and leaves the caller's value alone.
- Memory.SearchWithinLimit: its bound assumes the collection honours `n_results`, and for a limit of zero or less it only says the result may be empty.
- Tools.CheckApproval: costs and limits are exact reals; float rounding and NaN comparisons are not modelled.
