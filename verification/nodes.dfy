/** The three nodes of the translation graph. Each reads the state and returns the
    fields it changes, as an `Update`; none changes the state itself. */
module Nodes {
  import opened Outcomes
  import opened Text
  import opened States

  const CHUNK_SIZE: nat := 2000    // token budget per chunk, given to the splitter
  const CHUNK_OVERLAP: nat := 0    // tokens shared by neighbouring chunks
  const CONTEXT_SIZE: nat := 500   // characters of the previous translation kept as context

  /** The text splitter, called with the text, the chunk size and the overlap.
      Nothing is assumed about what it returns. */
  type Splitter = (string, nat, nat) -> seq<string>

  /** The two chat messages sent to the model. */
  datatype Prompt = Prompt(system: string, user: string)

  /** One chat-model call: the reply's content, or the exception it raised. */
  type Llm = Prompt -> Result<string>

  const SYSTEM_PROMPT: string :=
    "你是一个专业的文档翻译助手。你的任务是将提供的文本准确翻译成中文。\n"
    + "你需要保持翻译的连贯性。如果提供了【上文译文摘要】，请参考它来保持语境、人名和专业术语的一致性。\n"
    + "直接输出翻译结果，不要包含'好的'、'翻译如下'等废话。"

  /** Heads the text to translate in the user message. */
  const TEXT_HEADER: string := "【待翻译文本】:\n"

  /** Heads the context section; the context follows the three dots directly. */
  const CONTEXT_HEADER: string := "【上文译文摘要（仅供参考语境）】:\n..."

  /** What `str(e)` gives for the `IndexError` of indexing a list out of range. */
  const INDEX_ERROR: string := "list index out of range"

  /** `xs[i]` in Python, where `-len(xs) <= i < 0` counts from the end. */
  function PyIndex<T>(xs: seq<T>, i: int): (r: Result<T>)
    ensures r.Ok? <==> -|xs| <= i < |xs|
    ensures 0 <= i < |xs| ==> r == Ok(xs[i])
    ensures -|xs| <= i < 0 ==> r == Ok(xs[|xs| + i])
    ensures r.Err? ==> r.message == INDEX_ERROR
  {
    if 0 <= i < |xs| then Ok(xs[i])
    else if -|xs| <= i < 0 then Ok(xs[|xs| + i])
    else Err(INDEX_ERROR)
  }

  /** `init_node`: splits the source text once and resets the loop fields. */
  function InitNode(s: TranslationState, split: Splitter): (u: Update)
    ensures var r := ApplyUpdate(s, u);
      && r.chunks == split(s.sourceText, CHUNK_SIZE, CHUNK_OVERLAP)
      && r.currentIndex == 0
      && r.contextBuffer == ""
      && r.finalOutput == None
      && r.sourceText == s.sourceText
      // the empty list it returns is appended, so earlier translations stay
      && r.translatedChunks == s.translatedChunks
  {
    Update(
      None,
      Some(split(s.sourceText, CHUNK_SIZE, CHUNK_OVERLAP)),
      Some(0),
      Some([]),
      Some(""),
      Some(None))
  }

  /** The user message: the context section, only when there is a context, then the text. */
  function UserContent(chunk: string, context: string): (u: string)
    ensures |chunk| + 1 <= |u| && u[|u| - |chunk| - 1..|u| - 1] == chunk && u[|u| - 1] == '\n'
    ensures context == "" <==> u == TEXT_HEADER + chunk + "\n"
    ensures context != "" ==>
      && |CONTEXT_HEADER| + |context| <= |u|
      && u[..|CONTEXT_HEADER|] == CONTEXT_HEADER
      && u[|CONTEXT_HEADER|..|CONTEXT_HEADER| + |context|] == context
  {
    var body := TEXT_HEADER + chunk + "\n";
    if context != "" then CONTEXT_HEADER + context + "\n\n" + body else body
  }

  function ChunkPrompt(chunk: string, context: string): Prompt
  {
    Prompt(SYSTEM_PROMPT, UserContent(chunk, context))
  }

  /** Translates one chunk: the model's reply with surrounding whitespace stripped. */
  function TranslateChunk(chunk: string, context: string, llm: Llm): (r: Result<string>)
    ensures r.Ok? <==> llm(ChunkPrompt(chunk, context)).Ok?
    ensures r.Ok? ==> r.value == Strip(llm(ChunkPrompt(chunk, context)).value)
    ensures r.Err? ==> r.message == llm(ChunkPrompt(chunk, context)).message
  {
    match llm(ChunkPrompt(chunk, context))
    case Ok(reply) => Ok(Strip(reply))
    case Err(m) => Err(m)
  }

  /** The context for the next chunk: the last `CONTEXT_SIZE` characters of the translation,
      or all of it when it is no longer than that. The previous context plays no part. */
  function NextContext(translation: string): (c: string)
    ensures |c| <= CONTEXT_SIZE && |c| <= |translation|
    ensures |translation| <= CONTEXT_SIZE ==> c == translation
    ensures |translation| > CONTEXT_SIZE ==>
      |c| == CONTEXT_SIZE && c == translation[|translation| - CONTEXT_SIZE..]
  {
    if |translation| > CONTEXT_SIZE then translation[|translation| - CONTEXT_SIZE..] else translation
  }

  /** `translate_node`: translates `chunks[currentIndex]` with the current context, returns the
      translation for appending, the new context and the advanced cursor. Raises when the
      cursor is out of range or the model call fails. */
  function TranslateNode(s: TranslationState, llm: Llm): (r: Result<Update>)
    ensures !(-|s.chunks| <= s.currentIndex < |s.chunks|) ==> r == Err(INDEX_ERROR)
    ensures 0 <= s.currentIndex < |s.chunks| ==>
      var t := TranslateChunk(s.chunks[s.currentIndex], s.contextBuffer, llm);
      && (r.Ok? <==> t.Ok?)
      && (r.Err? ==> r.message == t.message)
      && (r.Ok? ==> Appended(r.value) == [t.value])
    ensures r.Ok? ==>
      && |Appended(r.value)| == 1
      && r.value.currentIndex == Some(s.currentIndex + 1)
      && r.value.contextBuffer == Some(NextContext(Appended(r.value)[0]))
      && r.value.sourceText.None? && r.value.chunks.None? && r.value.finalOutput.None?
  {
    match PyIndex(s.chunks, s.currentIndex)
    case Err(m) => Err(m)
    case Ok(text) =>
      match TranslateChunk(text, s.contextBuffer, llm)
      case Err(m) => Err(m)
      case Ok(translation) =>
        Ok(Update(None, None, Some(s.currentIndex + 1), Some([translation]),
                  Some(NextContext(translation)), None))
  }

  /** The separator `merge_node` puts between translations. */
  const PARAGRAPH_BREAK: string := "\n\n"

  /** `merge_node`: sets the final output to the translations joined in list order,
      and changes nothing else. */
  function MergeNode(s: TranslationState): (u: Update)
    ensures ApplyUpdate(s, u) == s.(finalOutput := Some(Join(PARAGRAPH_BREAK, s.translatedChunks)))
  {
    Update(None, None, None, None, None, Some(Some(Join(PARAGRAPH_BREAK, s.translatedChunks))))
  }

  /** A file written by the tool. */
  datatype SavedFile = SavedFile(path: string, text: string)

  /** The file operations the tool uses: reading a whole file, and writing one. */
  datatype FileSystem = FileSystem(
    read: string -> Result<string>,
    write: (string, string) -> Result<()>)

  const OUTPUT_DIR: string := "temp"

  /** `os.path.join(OUTPUT_DIR, filename)` for a file name without a separator. */
  function OutputPath(filename: string): (path: string)
    ensures |path| == |OUTPUT_DIR| + 1 + |filename|
    ensures path[..|OUTPUT_DIR| + 1] == OUTPUT_DIR + "/" && path[|OUTPUT_DIR| + 1..] == filename
  {
    OUTPUT_DIR + "/" + filename
  }

  /** `save_text_to_file`: writes under the output directory and returns the path written. */
  function SaveTextToFile(fs: FileSystem, text: string, filename: string): (r: Result<string>)
    ensures r.Ok? <==> fs.write(OutputPath(filename), text).Ok?
    ensures r.Ok? ==> r.value == OutputPath(filename)
    ensures r.Err? ==> r.message == fs.write(OutputPath(filename), text).message
  {
    var path := OutputPath(filename);
    match fs.write(path, text)
    case Ok(_) => Ok(path)
    case Err(m) => Err(m)
  }
}
