# Zeta chatbot: the deterministic core, in Dafny

Zeta is a small personal chatbot. Under its UI, model and vector-database glue
there is a thin layer of deterministic logic, and this project models that layer
and proves properties of it:

- **Personality rules** (`brain/brain.py`, `brain/hallucination_gaurd.py`), modules
  `Brain` and `HallucinationGuard`. These are pure functions over the lower-cased
  input: the identity reply, the three-way tone classifier (empathetic, then
  playful roast, then neutral), the tone suffixer and the perception refusal. Each
  rule tests whether any phrase from a fixed list occurs as a substring.
- **Fact store** (`memory/fact_store.py`), module `FactStore`. This is a two-level
  table user → key → value. Class `FactFile` holds the JSON file's contents as
  `stored: Option<Table>`, where `None` means the file is missing or cannot be
  parsed. `UpdateFact` loads the table, sets one entry and saves the whole table
  back. A save ends in one of three ways: the table is written, the open fails
  and the file is untouched, or the write fails after `"w"` has truncated the
  file, which then no longer parses. Errors are swallowed.
- **Vector memory** (`memory/memory.py`), module `Memory`. It covers the per-user
  collection name and `store_memory_chunk` as an append to that user's
  collection. It also covers `recall`: the semantic hits come first, then stored
  documents that mention a keyword and are not already present, and the list is
  cut to Python's `[:k]`. The similarity search is an input (`semantic`, with
  `None` when it raised). Each guarded I/O step has a success flag.
- **Turn pipeline** (`utils.py`), module `Utils`. It covers `recall_memory` (the
  join), the prompt, and `chat_with_zeta` as class `Conversation`. The recalled
  items and the model's reply text are parameters. Every prompt sent to the model
  is appended to `prompts` and every memory write to `notes`.
- **String helpers** (module `Text`). These are ASCII versions of Python's
  `lower`, `in`, `replace`, `strip`, `"\n".join` and `split("\n")`.

## Model

| member | source | states |
|---|---|---|
| `Brain.MaintainIdentity` | brain/brain.py:4-9 | Returns "My name is {bot_name}. I'm here to help and chat with you." exactly when the lower-cased input (None read as "") contains one of the three probes; otherwise None. |
| `Brain.IdentityReplyNamesBot` | brain/brain.py:7-8 | The reply contains the profile's `bot_name`, or "Zeta" when the profile has none. |
| `Brain.NoneIsNotIdentityProbe` | brain/brain.py:5 | A None input is never an identity probe. |
| `Brain.IdentityIgnoresCase` | brain/brain.py:5-6 | The answer for an input equals the answer for its lower-cased form. |
| `Brain.ShoutedProbeIsAnswered` | brain/brain.py:5-8 | "Hey, WHO ARE YOU?" with an empty profile gets the reply naming Zeta. |
| `Brain.IdentityMonotone` | brain/brain.py:6 | Any text that contains a probing input is answered the same way. |
| `Brain.AdaptTone` | brain/brain.py:11-17 | Total; the result has the single key "tone", whose value is empathetic, playful_roast or neutral. |
| `Brain.ToneClassification` | brain/brain.py:12-17 | Empathetic iff an empathetic phrase occurs; playful_roast iff none does and a roast phrase does; neutral iff neither occurs. |
| `Brain.EmpatheticBeforeRoast` | brain/brain.py:13-16 | Any input containing an empathetic phrase is empathetic, whatever roast phrases it also contains. |
| `Brain.RoastRuleIsRoastOrInsult` | brain/brain.py:15 | The roast rule fires exactly when "roast" or "insult" occurs ("let's roast" adds nothing). |
| `Brain.ToneIgnoresCase` | brain/brain.py:12 | The label for an input equals the label for its lower-cased form. |
| `Brain.NoneIsNeutral` | brain/brain.py:12-17 | A None input is classified neutral. |
| `Brain.NaturalResponse` | brain/brain.py:19-24 | The text is a prefix of the reply; "neutral" and any unrecognised tone return the text unchanged. |
| `Brain.NaturalResponseSuffix` | brain/brain.py:20-24 | The reply is the text followed by the tone's fixed suffix, and cutting the reply at the text's length gives the text back. |
| `Brain.NaturalResponseInjective` | brain/brain.py:19-24 | For a fixed tone, equal replies come from equal texts. |
| `HallucinationGuard.GroundedResponse` | brain/hallucination_gaurd.py:2-16 | Returns the one fixed refusal exactly when one of the nine phrases occurs in the lower-cased input; otherwise None. |
| `HallucinationGuard.RefusesEachPhrase` | brain/hallucination_gaurd.py:5-15 | Each listed phrase, anywhere and in any case, yields that same refusal. |
| `HallucinationGuard.GuardMonotone` | brain/hallucination_gaurd.py:10 | Any text containing a refused input is refused. |
| `HallucinationGuard.GuardIgnoresCase` | brain/hallucination_gaurd.py:4 | The answer for an input equals the answer for its lower-cased form. |
| `FactStore.Lookup` | memory/fact_store.py:30 | Returns `Some(v)` exactly when both user and key are present, and v is the stored value; otherwise None. |
| `FactStore.Put` | memory/fact_store.py:21-25 | After the update, the (user, key) lookup gives the value; every other (user, key) lookup is unchanged; the users are the old users plus this one. |
| `FactStore.PutNewUser` | memory/fact_store.py:23-25 | An unknown user's new inner table holds exactly the new key. |
| `FactStore.PutLastWriteWins` | memory/fact_store.py:25 | Writing v1 then v2 to one entry equals writing v2 alone. |
| `FactStore.PutIdempotent` | memory/fact_store.py:25 | Repeating an identical update changes nothing. |
| `FactStore.FactFile.LoadFacts` | memory/fact_store.py:5-12 | A missing or unreadable file loads as the empty table; otherwise the stored table. |
| `FactStore.FactFile.SaveFacts` | memory/fact_store.py:14-19 | A successful write replaces the file's table. A failed open leaves the file unchanged. A write that fails after the truncating open leaves an unreadable file. |
| `FactStore.FactFile.UpdateFact` | memory/fact_store.py:21-26 | A saved update makes `GetFact(user, key)` return the value, and the file holds `Put` of the loaded table. Unless the write fails after truncation, no other pair's `GetFact` changes. A failed open changes nothing. A failed write after truncation makes every `GetFact` None. After an unreadable file, the saved table holds only the new fact. |
| `FactStore.FactFile.GetFact` | memory/fact_store.py:28-30 | None when the file is unreadable or the user or key is missing; otherwise the stored value. |
| `FactStore.LastWriteWins` | memory/fact_store.py:21-26 | Two saved updates of one entry leave the second value readable. |
| `FactStore.FailedWriteLosesTable` | memory/fact_store.py:9-11 | A write that fails after truncation, followed by a saved update, leaves a table holding only the second update's fact; every other fact is lost. |
| `Memory.CollectionName` | memory/memory.py:17-19 | The name starts with "user_", is as long as "user_" plus the name (or "anonymous"), is lower case and contains no space. |
| `Memory.CollectionNameChars` | memory/memory.py:19 | Character by character: a space becomes "_" and an ASCII capital becomes its lower-case letter. |
| `Memory.AnonymousCollection` | memory/memory.py:19 | A None or empty name maps to "user_anonymous". |
| `Memory.CollectionNamesCollide` | memory/memory.py:19 | "Anna Lee" and "anna_lee" share "user_anna_lee"; "Anonymous" shares the anonymous collection. |
| `Memory.KeywordDocs` | memory/memory.py:51-54 | Keeps exactly the documents that mention, case-insensitively, one of name, live, city, from, favorite, like, love. |
| `Memory.KeywordDocsInOrder` | memory/memory.py:54 | The filter keeps stored order: it distributes over concatenation, and one document is kept exactly when it mentions a keyword. |
| `Memory.FirstNewMembers` | memory/memory.py:55-57 | The fallback appends exactly the fallback documents that are not hits, and no more items than there are fallback documents. |
| `Memory.FirstNewInOrder` | memory/memory.py:55-57 | What the fallback appends is a subsequence of the fallback list, each document taken at its first occurrence. |
| `Memory.FirstNewDistinct` | memory/memory.py:55-57 | The fallback never appends the same text twice. |
| `Memory.AppendFallback` | memory/memory.py:55-57 | The loop leaves the hits followed by the new fallback documents, each at its first occurrence. |
| `Memory.Take` | memory/memory.py:60 | Python's `[:k]`: a prefix of length min(k, n) for k ≥ 0, and max(0, n + k) for negative k. |
| `Memory.MergeShape` | memory/memory.py:46-60 | The cut merge has at most k items. Its first items are the hits in order. Every later item is a fallback document that is not a hit and does not repeat an earlier item. |
| `Memory.VectorStore.Documents` | memory/memory.py:51-52 | The stored texts, in storage order. |
| `Memory.VectorStore.StoreMemoryChunk` | memory/memory.py:28-35 | Opens (creates) the user's collection. On success it appends exactly one chunk with the metadata, or `{}`. A failure leaves everything unchanged. |
| `Memory.VectorStore.Recall` | memory/memory.py:37-60 | Empty collection or failed count gives []. Otherwise: hits, then new keyword documents (skipped if `get` failed), cut to `[:k]`. At most k items; hits form the prefix; later items are keyword documents, not hits, not repeated. A failed search makes the hits []. |
| `Memory.RecallEmpty` | memory/memory.py:41-42 | An empty collection recalls nothing, whatever the search returns. |
| `Memory.StoreThenRecall` | memory/memory.py:28-60 | A stored chunk that mentions a keyword is recalled when k leaves room for it. |
| `Utils.RecallMemory` | utils.py:21-23 | An empty recall gives ""; a single item is returned as is. |
| `Utils.RecallMemoryRoundTrip` | utils.py:23 | The joined block splits on "\n" back into the items when no item contains a newline. |
| `Utils.Prompt` | utils.py:46-47 | The prompt starts with the system preamble; the recalled facts follow it, then "\n\nUser: ", the input and "\nAssistant:", each at its fixed offset. |
| `Utils.PromptDeterminesParts` | utils.py:46-47 | Equal prompts with equal-length parts have equal facts and inputs. |
| `Utils.NoteMetadata` | utils.py:60 | The metadata's only key is "user": the profile's `user_id`, "unknown" without a (non-empty) profile, None when a profile lacks `user_id`. |
| `Utils.DisclosureIgnoresCase` | utils.py:57-58 | The trigger test gives the same answer for an input and its lower-cased form, and any text containing a disclosure is one. |
| `Utils.ToneOf` | utils.py:39-40 | The tone used is always one of the three labels. |
| `Utils.ChatAsWritten` | utils.py:29-43 | As written: the identity reply naming `bot_name` (or Zeta), else the refusal, else a `TypeError` from the `recall` call. |
| `Utils.GreetingRaisesAsWritten` | utils.py:22 | As written, the input "hi" raises that `TypeError`. |
| `Utils.Conversation.StoreFact` | utils.py:25-27 | Exactly one memory write of the note with its metadata (or `{}`); no prompt is sent. |
| `Utils.Conversation.ChatWithZeta` | utils.py:29-62 | An identity match returns its reply with no prompt and no write. Otherwise a perception match returns the refusal, also with neither. Otherwise exactly one prompt is sent and the reply is `natural_response(strip(model text), tone)`. The raw input is stored, with the metadata above, exactly when it contains one of the five trigger phrases. |
| `Text.Strip` | utils.py:54 | The result is the slice of the input between its leading and trailing whitespace runs, and neither starts nor ends with whitespace. |

## Left out

- `app.py` (the Streamlit UI, session state, the debug memory viewer) is not part of this model.
- `memory/memory_summarizer.py` (a wrapper around one model call) is not part of this model.
- The language-model client, the API-key check and `llm.invoke` (utils.py:13-19, utils.py:50-51) are not modelled. The reply text is a parameter. The source does not catch model errors, so no fallback reply is modelled.
- Embeddings and similarity search (memory/memory.py:13-15, memory/memory.py:46) are not modelled. The search result is an input, and no property depends on ranking quality. Because the query only feeds the search, `Recall` takes no `query` parameter.
- Real I/O (opening and writing the JSON file, Chroma persistence, directory creation) is not modelled. It becomes state plus success flags.
- `Memory.VectorStore.StoreMemoryChunk`: one flag covers `add_texts` and `persist` together, so a persist failure after a successful add is not modelled separately.
- `FactStore.FactFile.LoadFacts`: a JSON file that parses to something other than a user → key → string table (a list, or non-string values) is not modelled.
- Metadata values are not checked against what the vector store accepts; writes in `Conversation` are abstract appends.
- `str.lower` and `str.strip` are modelled for ASCII only; Unicode case mapping and Unicode whitespace are not modelled.
- `chat_with_zeta` with a None input is not modelled: `grounded_response` would raise on it, so `ChatWithZeta` takes a string.
- The model follows the code where descriptions of this chatbot differ from it. The code has no greeting replies, no name extraction into the fact store, no direct fact-store answers to "what's my name", no apology on model errors, and no refusal check before the identity check. None of these is modelled.
- Concurrent writers to the fact file are not modelled; the program is single-threaded.
- A failed write after truncation is modelled as an unreadable file; a failure late enough to leave a complete, parseable JSON text is not distinguished.
- Profiles are modelled as string-to-string maps. A profile value that is Python's None (as `"name": None` in app.py) is not modelled; a None `bot_name` would make the identity reply read "My name is None.".
- The `print` calls on swallowed errors (memory/fact_store.py:19, memory/memory.py:35) are console output only and are not modelled.

## Findings

| source | as written | input that shows it | evidently intended | confidence | as-written member | corrected member |
|---|---|---|---|---|---|---|
| utils.py:22 | `recall(query, k=3)` calls `recall(user_name, query, k)` (memory/memory.py:37) with the query as `user_name` and no `query`, so it raises `TypeError`. The same defect is in `store_memory_chunk(note, metadata=...)` (utils.py:27). That call is never reached, because recall raises first. | "hi", or any input that is neither an identity probe nor a perception question | recall and store get a user name as well as the query or note, so the turn reaches the model and returns its reply | high (not executed) | `Utils.ChatAsWritten` | `Utils.Conversation.ChatWithZeta` |
