/** The record the translation graph carries from node to node (`TranslationState`),
    and the rule by which the fields a node returns are merged into it. */
module States {
  import opened Outcomes

  datatype TranslationState = TranslationState(
    sourceText: string,           // the whole input text
    chunks: seq<string>,          // the source split into pieces
    currentIndex: int,            // the loop cursor: the piece to translate next
    translatedChunks: seq<string>,// translations so far; merged by list concatenation
    contextBuffer: string,        // tail of the previous translation, shown to the next call
    finalOutput: Option<string>)  // the joined translation, once merged

  /** The dictionary a node returns: `None` marks a key the node did not return.
      For `finalOutput`, `Some(None)` is a node returning `"final_output": None`. */
  datatype Update = Update(
    sourceText: Option<string>,
    chunks: Option<seq<string>>,
    currentIndex: Option<int>,
    translatedChunks: Option<seq<string>>,
    contextBuffer: Option<string>,
    finalOutput: Option<Option<string>>)

  /** The default channel rule: a returned value replaces the current one. */
  function Overwrite<T>(current: T, returned: Option<T>): T
  {
    match returned
    case Some(v) => v
    case None => current
  }

  /** What an update contributes to `translatedChunks` (nothing when the key is absent). */
  function Appended(u: Update): seq<string>
  {
    match u.translatedChunks
    case Some(xs) => xs
    case None => []
  }

  /** Merges a node's returned fields into the state: `translatedChunks` with the
      `operator.add` reducer, every other field by overwriting. */
  function ApplyUpdate(s: TranslationState, u: Update): (r: TranslationState)
    ensures s.translatedChunks <= r.translatedChunks
    ensures r.translatedChunks == s.translatedChunks + Appended(u)
    ensures u.sourceText.None? ==> r.sourceText == s.sourceText
    ensures u.chunks.None? ==> r.chunks == s.chunks
    ensures u.currentIndex.None? ==> r.currentIndex == s.currentIndex
    ensures u.contextBuffer.None? ==> r.contextBuffer == s.contextBuffer
    ensures u.finalOutput.None? ==> r.finalOutput == s.finalOutput
    ensures u.sourceText.Some? ==> r.sourceText == u.sourceText.value
    ensures u.chunks.Some? ==> r.chunks == u.chunks.value
    ensures u.currentIndex.Some? ==> r.currentIndex == u.currentIndex.value
    ensures u.contextBuffer.Some? ==> r.contextBuffer == u.contextBuffer.value
    ensures u.finalOutput.Some? ==> r.finalOutput == u.finalOutput.value
  {
    TranslationState(
      Overwrite(s.sourceText, u.sourceText),
      Overwrite(s.chunks, u.chunks),
      Overwrite(s.currentIndex, u.currentIndex),
      s.translatedChunks + Appended(u),
      Overwrite(s.contextBuffer, u.contextBuffer),
      Overwrite(s.finalOutput, u.finalOutput))
  }
}
