# translate_agent — a Dafny model of the document translation pipeline

This project models the translation sub-graph of `translate_agent` together with the tool
that wraps it. A long document is translated as follows:
- It is split into chunks with a 2000-token budget and no overlap (`init_node`).
- The chunks are translated in order, one chat-model call each (`translate_node`). Each call
  sees the last 500 characters of the previous translation as context.
- The translations are joined with blank lines (`merge_node`).
- `should_continue` loops back to `translate_node` while the cursor is inside the chunk list.
- `document_translator_tool` reads the file, runs the graph, and writes
  `temp/translated_<basename>`. It answers with a success or an error message and never raises.

Modules:

- `Outcomes`: `Option` and `Result`. `Err(message)` stands for a raised exception, and its
  message is what `str(e)` gives.
- `Text`: the Python string operations the code relies on:
  - `str.strip()`, with Python's whitespace set;
  - `"\n\n".join`;
  - `os.path.basename` on POSIX paths.
- `States`: the `TranslationState` record, and the LangGraph merge rule for a node's returned
  dictionary. `translated_chunks` grows by `operator.add`; every other key that is returned
  overwrites the field.
- `Nodes`: the three nodes as functions from a state to an `Update` (the returned dictionary),
  with the constants, the prompt text and Python's list indexing; and `save_text_to_file`.
- `Agents`:
  - `should_continue`;
  - a reference definition of the whole run (`TranslateAll`, `Pipeline`);
  - the compiled graph as a class whose `Invoke` method runs the nodes one superstep at a time
    and is proved to produce exactly `Pipeline`'s result;
  - the tool.

The text splitter, the chat model and the file system are parameters:
- `Splitter`: a function from the text, the chunk size and the overlap to the chunks.
- `Llm`: a function from the prompt to the reply or an error.
- `FileSystem`: a record of a read function and a write function.

Nothing is assumed about what these return, so every property holds for every splitter, model
and file system.

Behaviour the model keeps as the code has it:

- An input that the splitter turns into no chunks makes the first translate step index
  `chunks[0]` of an empty list. The unconditional `init_node → translate_node` edge sends every
  run there. The tool therefore answers `翻译过程中出错: list index out of range` and writes no
  file (`ToolEmptyChunksFails`). An empty document therefore ends in an error message, not in
  an empty translation; the model follows the code.
- `init_node` returns `translated_chunks: []`. Under the `operator.add` reducer that appends
  nothing, so translations already in the state before `init_node` are kept.
  - `Pipeline` and `Invoke` carry `initial.translatedChunks` along for this reason.
  - The tool always starts from an empty list, so its output is unaffected.
- The next context is computed from the new translation alone: `translation[-500:]`, or the
  whole translation when it is no longer than 500 characters. The previous context plays no part.
- A model call that raises, on any chunk, aborts the whole job. The chunks before it have
  been translated, no later chunk is tried, the tool reports that call's message, and no
  partial output is written (`RunFails`, `TranslationGraph.Invoke`, `ToolTranslationFails`).

## Model

| member | source | states |
|---|---|---|
| Text.Strip | backend/nodes.py:78 | `response.content.strip()`: the result is no longer than the reply, its first and last characters are not whitespace, and it is empty exactly when the reply is all whitespace |
| Text.StripUnique | backend/nodes.py:78 | any split of a string into whitespace, a piece with non-whitespace ends, and whitespace has `Strip` returning exactly that piece, so stripping removes whitespace and nothing else |
| Text.StripIdempotent | backend/nodes.py:78 | stripping a stripped translation changes nothing |
| Text.Join | backend/nodes.py:102 | `"\n\n".join` of no translations is the empty string, and of one translation is that translation unchanged |
| Text.JoinLength | backend/nodes.py:102 | the joined text is as long as all pieces together plus one separator between each neighbouring pair |
| Text.JoinFrom | backend/nodes.py:102 | from where piece `i` starts, the joined text is piece `i` unchanged, then the separator and the join of the later pieces, unless `i` is the last: every translation appears intact and in list order |
| Text.JoinSnoc | backend/nodes.py:102 | joining a list with one more translation appends the separator and that translation to the joined text |
| Text.Basename | backend/agents.py:71 | `os.path.basename`: a suffix of the path containing no `/`, preceded by a `/` whenever it is shorter than the path |
| States.ApplyUpdate | backend/states.py:6-25 | merging a node's dictionary: `translated_chunks` becomes the old list followed by the returned list (so it only grows), a returned key replaces its field, and a key not returned leaves its field unchanged |
| Nodes.PyIndex | backend/nodes.py:52 | Python list indexing: succeeds exactly for `-len <= i < len`, counting from the end for a negative index, and otherwise fails with `list index out of range` |
| Nodes.InitNode | backend/nodes.py:16-41 | after `init_node`, `chunks` is the splitter's result for the source text with chunk size 2000 and overlap 0, the cursor is 0, the context is empty, there is no final output, and the source text and existing translations are unchanged |
| Nodes.UserContent | backend/nodes.py:64-67 | the user message ends with the chunk and a newline; with an empty context it is exactly the text header, the chunk and a newline; with a non-empty context it starts with the context header followed by the context |
| Nodes.TranslateChunk | backend/nodes.py:56-78 | the chunk translation succeeds exactly when the model call does, yields the stripped reply, and otherwise fails with the call's message |
| Nodes.NextContext | backend/nodes.py:82 | the new context has at most 500 characters: the whole translation when it has at most 500 characters, otherwise exactly its last 500 |
| Nodes.TranslateNode | backend/nodes.py:43-92 | a cursor outside the list fails with the index error; inside it, the step succeeds exactly when the chunk's translation does, appends exactly that translation, and returns exactly three keys: that one translation for `translated_chunks`, the cursor plus one, and `NextContext` of the translation as the context; it returns no source text, chunks or final output, so merging it leaves those unchanged |
| Nodes.MergeNode | backend/nodes.py:94-106 | after `merge_node` the state is unchanged except that the final output is the translations joined by a blank line |
| Agents.ShouldContinue | backend/agents.py:15-18 | the edge after a translate step goes back to translate exactly when the cursor is before the end of the chunk list, and to merge otherwise |
| Agents.TranslateAll | backend/agents.py:26-28 | reference definition of the translate loop: a successful run yields one translation per chunk |
| Agents.AgreesSnoc | backend/nodes.py:84-92 | a translation that the step gives for the next chunk, asked with the context the last translation left, extends the translations that agree with the run |
| Agents.TranslationsFollowChunks | backend/nodes.py:64-82 | both directions: a run yields `ts` exactly when there is one translation per chunk, and translation `k` is the step's result for chunk `k`, asked with no context for chunk 0 and with the last 500 characters of translation `k-1` otherwise |
| Agents.RunSuffix | backend/agents.py:27-28 | from any point of a successful run, the rest of the run is the run over the remaining chunks started from the context the previous translation left |
| Agents.SuffixRun | backend/agents.py:27-28 | the converse: translations that agree with the run for every chunk form the run over the chunks from any point on |
| Agents.FailsFrom | backend/agents.py:27-28 | a run that stops at chunk `k` with message `m` fails with `m` from every earlier chunk on |
| Agents.FailureFrom | backend/agents.py:27-28 | a run that fails after some chunks translated stops at some later chunk, with the same message |
| Agents.RunFails | backend/nodes.py:52-78 | both directions: the run fails with `m` exactly when, for some `k`, chunks `0..k-1` translate (each with the context the one before left) and the model call for chunk `k` raises `m`; no later chunk is tried |
| Agents.Pipeline | backend/agents.py:20-31 | the run of the graph from a state: an empty chunk list fails with the index error; otherwise it succeeds exactly when every chunk translates, and a failure carries the message of the call for some chunk `k` whose predecessors all translated; on success it ends with the split chunks, the cursor at the end, the translations appended in chunk order, a context of at most 500 characters, and the final output set to their join |
| Agents.TranslationGraph.RunInit | backend/agents.py:22-27 | the init superstep merges `init_node`'s update into the state, records `Init`, and moves to translate |
| Agents.TranslationGraph.RunTranslate | backend/agents.py:23-28 | a translate superstep that raises leaves the state and position unchanged and reports the node's error; one that succeeds merges the node's update and follows `should_continue` |
| Agents.TranslationGraph.RunMerge | backend/agents.py:24-29 | the merge superstep merges `merge_node`'s update, records `Merge`, and reaches the exit |
| Agents.InitStartsRun | backend/agents.py:26-27 | after the init superstep the state is at the start of the run: the split chunks, the cursor at 0, no context, nothing translated yet |
| Agents.TranslateNodeOk | backend/nodes.py:43-92 | a successful `translate_node` with a non-negative cursor had the cursor inside the list, and its merged update is the state with the cursor advanced, the step's translation of that chunk appended, and the context set from it |
| Agents.TranslateStepOk | backend/nodes.py:84-92 | a successful translate step from the middle of a run appends one translation, moves the cursor past it, and leaves the graph's state in the middle of the run one chunk further on |
| Agents.TranslateStepErr | backend/nodes.py:52-78 | a raising translate step stops the run at the chunk under the cursor: the chunks before it translated, the call for it raised that message, and the reference run fails with the same message (the index error when there are no chunks) |
| Agents.PipelineAtMerge | backend/agents.py:28-29 | merging once every chunk is translated in the order of the run yields exactly the state `Pipeline` describes |
| Agents.TranslationGraph.TranslateChunks | backend/agents.py:27-28 | the translate loop keeps the state in the middle of the reference run; it stops at merge with every chunk translated after one translate step per chunk, or at the first raising step, for chunk `|done|`, after exactly `|done| + 1` translate steps, with the reference run's error |
| Agents.TranslationGraph.Invoke | backend/agents.py:67 | `translation_app.invoke` returns exactly `Pipeline`'s result (for runs within LangGraph's 25-superstep limit, see Left out); on success it holds that state with the trace init, one translate per chunk, merge; on failure the trace is init and one translate step for each chunk up to and including the one whose call raised, whose message is the error (init and one translate step, with the index error, when there are no chunks) |
| Nodes.OutputPath | backend/nodes.py:111 | `os.path.join("temp", filename)`: the directory `temp`, a separator, then the file name unchanged |
| Nodes.SaveTextToFile | backend/nodes.py:108-114 | the save succeeds exactly when the write of the text to `temp/<filename>` does, returns that path, and otherwise fails with the write's message |
| Agents.ToolOutcome | backend/agents.py:41-77 | the tool's answer: a failed read gives the error prefix and the read's message, with no file; a saved file happens only after a successful read and a successful run, and is `temp/translated_<basename>`, named after the success prefix; every answer without a saved file starts with the error prefix |
| Agents.DocumentTranslatorTool | backend/agents.py:41-77 | the tool, running the graph object, answers exactly `ToolOutcome` for every file, splitter, model and file system |
| Agents.ToolEmptyChunksFails | backend/agents.py:50-77 | a document the splitter turns into no chunks makes the tool answer with the index error and write nothing |
| Agents.ToolTranslationFails | backend/agents.py:66-77 | when the chunks before chunk `k` translate and the model call for chunk `k` raises, the tool answers with that call's message and writes nothing |
| Agents.ToolRunSucceeds | backend/agents.py:57-68 | when every chunk of the read text translates into `ts`, the run from the tool's initial state succeeds and its final output is `ts` joined by blank lines |
| Agents.ToolWriteFails | backend/agents.py:66-77 | when every chunk translates but writing the result fails, the tool answers with the error prefix and the write's message, and reports no file |
| Agents.ToolWritesJoinedTranslations | backend/agents.py:66-74 | when every chunk translates and the write succeeds, the tool writes the translations joined by blank lines in chunk order to `temp/translated_<basename>` and names that path in its success message |

## Left out

- Text splitting (`RecursiveCharacterTextSplitter.from_tiktoken_encoder`, tiktoken token
  counting): a foreign library. The splitter is the `Splitter` parameter, called with chunk
  size 2000 and overlap 0, and nothing is assumed about its result.
- The chat model (`get_llm`, temperature 0.3, the network): a foreign service. It is the `Llm`
  parameter applied to the two prompt messages. A raised exception is an `Err` carrying the
  exception's text.
- Prompt templating: `ChatPromptTemplate.from_messages` treats both messages as f-string
  templates, and `chain.invoke({})` formats them with no variables. A chunk or context holding
  `{`/`}` can therefore raise, and `{{`/`}}` are collapsed to single braces. The model passes
  the messages unformatted and folds this into `Llm`, which may fail or see any prompt text;
  since nothing is assumed about `Llm`, every property still holds.
- File I/O (`read_text_from_file`, `os.makedirs`, `open`, UTF-8 decoding): the `FileSystem`
  parameter. Creating `temp` is folded into the write function.
- `os.path.join` is modelled as `temp/` followed by the file name. This is exact for the
  basename-derived names the tool passes, which contain no `/`.
- The `print` logging in the nodes and the tool: output only.
- LangGraph's superstep limit is not modelled. `translation_app.invoke(initial_state)` passes no
  configuration, so the default `recursion_limit` of 25 supersteps applies. A run takes init, one
  translate step per chunk and merge. A document split into more chunks than fit in 25
  supersteps (about 23) therefore raises `GraphRecursionError` in the program, and the tool
  answers with an error message and writes nothing. The model has no such limit, so it matches
  the program only for runs within 25 supersteps.
- Agents.TranslationGraph.Invoke: returns `Pipeline`'s result for every chunk count; the program
  raises `GraphRecursionError` instead once a run needs more than 25 supersteps (about 23 chunks).
- Agents.Pipeline: likewise describes runs of any length, where the program fails past 25
  supersteps.
- Agents.ToolWritesJoinedTranslations: holds in the program only for documents of about 23
  chunks or fewer; longer ones end in the error message for `GraphRecursionError`.
- Python strings are sequences of code points. The model treats them as `seq<char>`, with no
  difference for this code.
- `get_main_agent` and the supervisor ReAct agent (`create_agent` with the tool), the FastAPI
  web server in `main.py` (its `/process` endpoint, the upload handling and `clear_temp_folder`)
  and `backend/utils.py`: outside the translation pipeline. They are not part of this model.
- The graph is compiled once at import time in the source (`translation_app`). The tool here
  creates a fresh `TranslationGraph` for each call. Graph objects carry no state between
  invocations, so this changes nothing.
- `Agents.TranslateAll`: its own contract states only the length of the result. The
  chunk-by-chunk meaning of the loop is stated by `TranslationsFollowChunks`.
