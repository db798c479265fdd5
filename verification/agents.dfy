/** The translation graph (init, then translate until the cursor reaches the end of the
    chunk list, then merge), the engine that runs it on one state, and the tool that reads
    a file, runs the graph and saves the result. */
module Agents {
  import opened Outcomes
  import opened Text
  import opened States
  import opened Nodes

  /** The graph's nodes; `End` is the graph's exit. */
  datatype GraphNode = Init | Translate | Merge | End

  /** `should_continue`: the edge taken after each translate step. */
  function ShouldContinue(s: TranslationState): (next: GraphNode)
    ensures next == Translate || next == Merge
    ensures next == Translate <==> s.currentIndex < |s.chunks|
  {
    if s.currentIndex < |s.chunks| then Translate else Merge
  }

  /** One translate step as a value: the chunk and the context in, the translation out. */
  type ChunkTranslator = (string, string) -> Result<string>

  /** The step `translate_node` takes with a given model. */
  function StepWith(llm: Llm): ChunkTranslator
  {
    (chunk, context) => TranslateChunk(chunk, context, llm)
  }

  /** Reference definition of the translation loop: `chunks` translated in order, each
      with the context the one before left, the first with `context`. Fails with the
      first failing step. */
  function TranslateAll(chunks: seq<string>, context: string, step: ChunkTranslator): (r: Result<seq<string>>)
    ensures r.Ok? ==> |r.value| == |chunks|
  {
    if chunks == [] then Ok([])
    else
      match step(chunks[0], context)
      case Err(m) => Err(m)
      case Ok(t) =>
        match TranslateAll(chunks[1..], NextContext(t), step)
        case Err(m) => Err(m)
        case Ok(rest) => Ok([t] + rest)
  }

  /** The context chunk `k` is translated with, given the translations `ts` of the run:
      none for the first chunk, the tail of the previous translation for the others. */
  function ContextBefore(ts: seq<string>, k: nat): string
    requires k <= |ts|
  {
    if k == 0 then "" else NextContext(ts[k - 1])
  }

  /** Dropping `j` elements and then the first of the rest is dropping `j + 1`. */
  lemma DropOne<T>(xs: seq<T>, j: nat)
    requires j < |xs|
    ensures xs[j..] != [] && xs[j..][0] == xs[j] && xs[j..][1..] == xs[j + 1..]
  {
  }

  /** Appending a translation does not change the context of any chunk up to it. */
  lemma ContextBeforeSnoc(ts: seq<string>, t: string, k: nat)
    requires k <= |ts|
    ensures ContextBefore(ts + [t], k) == ContextBefore(ts, k)
    ensures ContextBefore(ts + [t], |ts| + 1) == NextContext(t)
  {
    assert (ts + [t])[|ts|] == t;
    if k > 0 {
      assert (ts + [t])[k - 1] == ts[k - 1];
    }
  }

  /** The translations `ts` are what `step` gives for the first `|ts|` chunks, each asked
      with the context the translation before it left. */
  predicate Agrees(chunks: seq<string>, step: ChunkTranslator, ts: seq<string>)
  {
    && |ts| <= |chunks|
    && forall k {:trigger ContextBefore(ts, k)} :: 0 <= k < |ts| ==>
         step(chunks[k], ContextBefore(ts, k)) == Ok(ts[k])
  }

  /** A run that stops at chunk `|ts|`: the chunks before it translated into `ts`, and the
      step for that chunk failed with `m`. */
  predicate FailsAt(chunks: seq<string>, step: ChunkTranslator, ts: seq<string>, m: string)
  {
    && |ts| < |chunks|
    && Agrees(chunks, step, ts)
    && step(chunks[|ts|], ContextBefore(ts, |ts|)) == Err(m)
  }

  /** One more successful step extends the translations that agree with the run. */
  lemma AgreesSnoc(chunks: seq<string>, step: ChunkTranslator, ts: seq<string>, t: string)
    requires Agrees(chunks, step, ts) && |ts| < |chunks|
    requires step(chunks[|ts|], ContextBefore(ts, |ts|)) == Ok(t)
    ensures Agrees(chunks, step, ts + [t])
  {
    var ts' := ts + [t];
    forall k | 0 <= k < |ts'|
      ensures step(chunks[k], ContextBefore(ts', k)) == Ok(ts'[k])
    {
      ContextBeforeSnoc(ts, t, k);
      assert ts'[k] == if k < |ts| then ts[k] else t;
    }
  }

  /** One step of the reference loop: a successful run begins with the translation of the
      first chunk and goes on with a run over the others. */
  lemma TranslateAllHead(chunks: seq<string>, context: string, step: ChunkTranslator, ts: seq<string>)
    requires chunks != [] && TranslateAll(chunks, context, step) == Ok(ts)
    ensures ts != [] && step(chunks[0], context) == Ok(ts[0])
    ensures TranslateAll(chunks[1..], NextContext(ts[0]), step) == Ok(ts[1..])
  {
  }

  /** The converse step: a translated first chunk followed by a successful run over the rest. */
  lemma TranslateAllCons(chunks: seq<string>, context: string, step: ChunkTranslator, ts: seq<string>)
    requires chunks != [] && ts != [] && step(chunks[0], context) == Ok(ts[0])
    requires TranslateAll(chunks[1..], NextContext(ts[0]), step) == Ok(ts[1..])
    ensures TranslateAll(chunks, context, step) == Ok(ts)
  {
    assert [ts[0]] + ts[1..] == ts;
  }

  /** Every suffix of a successful run is itself the run over the remaining chunks, started
      with the context the preceding translation left. */
  lemma {:induction false} RunSuffix(chunks: seq<string>, step: ChunkTranslator, ts: seq<string>, j: nat)
    requires TranslateAll(chunks, "", step) == Ok(ts)
    requires j <= |chunks|
    ensures |ts| == |chunks|
    ensures TranslateAll(chunks[j..], ContextBefore(ts, j), step) == Ok(ts[j..])
    decreases j
  {
    assert |ts| == |chunks|;
    if j > 0 {
      RunSuffix(chunks, step, ts, j - 1);
      RunStepForward(chunks, step, ts, j);
    }
  }

  /** The run from chunk `j - 1` on, less its first translation, is the run from chunk `j` on. */
  lemma RunStepForward(chunks: seq<string>, step: ChunkTranslator, ts: seq<string>, j: nat)
    requires |ts| == |chunks| && 0 < j <= |chunks|
    requires TranslateAll(chunks[j - 1..], ContextBefore(ts, j - 1), step) == Ok(ts[j - 1..])
    ensures TranslateAll(chunks[j..], ContextBefore(ts, j), step) == Ok(ts[j..])
  {
    DropOne(chunks, j - 1);
    DropOne(ts, j - 1);
    TranslateAllHead(chunks[j - 1..], ContextBefore(ts, j - 1), step, ts[j - 1..]);
  }

  /** A run from chunk `j + 1` on, preceded by the translation of chunk `j`, is the run from
      chunk `j` on. */
  lemma RunStepBack(chunks: seq<string>, step: ChunkTranslator, ts: seq<string>, j: nat)
    requires |ts| == |chunks| && j < |chunks|
    requires step(chunks[j], ContextBefore(ts, j)) == Ok(ts[j])
    requires TranslateAll(chunks[j + 1..], ContextBefore(ts, j + 1), step) == Ok(ts[j + 1..])
    ensures TranslateAll(chunks[j..], ContextBefore(ts, j), step) == Ok(ts[j..])
  {
    DropOne(chunks, j);
    DropOne(ts, j);
    TranslateAllCons(chunks[j..], ContextBefore(ts, j), step, ts[j..]);
  }

  /** Built back to front: translations that agree with the run for every chunk make up
      the run over the chunks from `j` on. */
  lemma {:induction false} SuffixRun(chunks: seq<string>, step: ChunkTranslator, ts: seq<string>, j: nat)
    requires |ts| == |chunks| && j <= |chunks| && Agrees(chunks, step, ts)
    ensures TranslateAll(chunks[j..], ContextBefore(ts, j), step) == Ok(ts[j..])
    decreases |chunks| - j
  {
    if j == |chunks| {
      assert chunks[j..] == [] && ts[j..] == [];
    } else {
      SuffixRun(chunks, step, ts, j + 1);
      assert step(chunks[j], ContextBefore(ts, j)) == Ok(ts[j]);
      RunStepBack(chunks, step, ts, j);
    }
  }

  /** The translations of a whole run come in the order of the chunks: translation `k` is the
      step's result for chunk `k`, asked with no context for chunk 0 and with the tail of
      translation `k - 1` for the others. Both directions: the run is exactly this. */
  lemma TranslationsFollowChunks(chunks: seq<string>, step: ChunkTranslator, ts: seq<string>)
    ensures TranslateAll(chunks, "", step) == Ok(ts) <==> |ts| == |chunks| && Agrees(chunks, step, ts)
  {
    if TranslateAll(chunks, "", step) == Ok(ts) {
      forall k | 0 <= k < |ts|
        ensures step(chunks[k], ContextBefore(ts, k)) == Ok(ts[k])
      {
        RunSuffix(chunks, step, ts, k);
        TranslateAllHead(chunks[k..], ContextBefore(ts, k), step, ts[k..]);
        DropOne(chunks, k);
        DropOne(ts, k);
      }
    }
    if |ts| == |chunks| && Agrees(chunks, step, ts) {
      SuffixRun(chunks, step, ts, 0);
      assert chunks[0..] == chunks && ts[0..] == ts;
    }
  }

  /** A run that stops at chunk `|ts|` fails from every earlier chunk on with the same message. */
  lemma {:induction false} FailsFrom(chunks: seq<string>, step: ChunkTranslator, ts: seq<string>, m: string, j: nat)
    requires FailsAt(chunks, step, ts, m) && j <= |ts|
    ensures TranslateAll(chunks[j..], ContextBefore(ts, j), step) == Err(m)
    decreases |ts| - j
  {
    DropOne(chunks, j);
    if j < |ts| {
      FailsFrom(chunks, step, ts, m, j + 1);
      assert step(chunks[j], ContextBefore(ts, j)) == Ok(ts[j]);
      assert ContextBefore(ts, j + 1) == NextContext(ts[j]);
    }
  }

  /** A run that fails after the chunks before `|ts|` translated into `ts` stops at some chunk. */
  lemma {:induction false} FailureFrom(chunks: seq<string>, step: ChunkTranslator, ts: seq<string>, m: string)
    requires Agrees(chunks, step, ts)
    requires TranslateAll(chunks[|ts|..], ContextBefore(ts, |ts|), step) == Err(m)
    ensures exists us :: FailsAt(chunks, step, us, m)
    decreases |chunks| - |ts|
  {
    var j := |ts|;
    DropOne(chunks, j);
    match step(chunks[j], ContextBefore(ts, j))
    case Err(_) =>
      assert FailsAt(chunks, step, ts, m);
    case Ok(t) =>
      AgreesSnoc(chunks, step, ts, t);
      ContextBeforeSnoc(ts, t, j);
      FailureFrom(chunks, step, ts + [t], m);
  }

  /** A run fails with `m` exactly when it stops at some chunk with `m`, every chunk before
      it having translated: the first failing call decides the error, and no chunk is
      tried again. */
  lemma RunFails(chunks: seq<string>, step: ChunkTranslator, m: string)
    ensures TranslateAll(chunks, "", step) == Err(m) <==> exists ts :: FailsAt(chunks, step, ts, m)
  {
    if TranslateAll(chunks, "", step) == Err(m) {
      assert chunks[0..] == chunks;
      FailureFrom(chunks, step, [], m);
    }
    if exists ts :: FailsAt(chunks, step, ts, m) {
      var ts :| FailsAt(chunks, step, ts, m);
      FailsFrom(chunks, step, ts, m, 0);
      assert chunks[0..] == chunks;
    }
  }

  /** The state a run leaves: reference definition of running the graph from `initial`.
      Init splits the text; the unconditional init-to-translate edge makes an empty chunk
      list fail on `chunks[0]`; otherwise every chunk is translated in turn and the
      translations are merged. */
  function Pipeline(initial: TranslationState, split: Splitter, llm: Llm): (r: Result<TranslationState>)
    ensures var c := split(initial.sourceText, CHUNK_SIZE, CHUNK_OVERLAP);
      && (c == [] ==> r == Err(INDEX_ERROR))
      && (r.Ok? <==> c != [] && TranslateAll(c, "", StepWith(llm)).Ok?)
      && (r.Err? && c != [] ==> exists ts :: FailsAt(c, StepWith(llm), ts, r.message))
    ensures r.Ok? ==>
      && r.value.sourceText == initial.sourceText
      && r.value.chunks == split(initial.sourceText, CHUNK_SIZE, CHUNK_OVERLAP)
      && r.value.currentIndex == |r.value.chunks|
      && r.value.translatedChunks
         == initial.translatedChunks + TranslateAll(r.value.chunks, "", StepWith(llm)).value
      && |r.value.contextBuffer| <= CONTEXT_SIZE
      && r.value.finalOutput == Some(Join(PARAGRAPH_BREAK, r.value.translatedChunks))
  {
    var s := ApplyUpdate(initial, InitNode(initial, split));
    if |s.chunks| == 0 then Err(INDEX_ERROR)
    else
      match TranslateAll(s.chunks, "", StepWith(llm))
      case Err(m) =>
        RunFails(s.chunks, StepWith(llm), m);
        Err(m)
      case Ok(ts) =>
        var translated := s.(translatedChunks := s.translatedChunks + ts,
                             currentIndex := |s.chunks|,
                             contextBuffer := ContextBefore(ts, |ts|));
        Ok(translated.(finalOutput := Some(Join(PARAGRAPH_BREAK, translated.translatedChunks))))
  }

  /** `Translate` repeated `n` times. */
  function Repeat(n: nat): (r: seq<GraphNode>)
    ensures |r| == n && forall k :: 0 <= k < n ==> r[k] == Translate
  {
    seq(n, _ => Translate)
  }

  lemma RepeatGrows(n: nat)
    ensures [Init] + Repeat(n) + [Translate] == [Init] + Repeat(n + 1)
  {
    assert Repeat(n) + [Translate] == Repeat(n + 1);
  }

  /** Where a run stands after translating the chunks `done` with `step`: the state the
      graph holds then, with every translation so far agreeing with the run. */
  ghost predicate Midway(initial: TranslationState, split: Splitter, step: ChunkTranslator,
                         s: TranslationState, done: seq<string>)
  {
    var c := split(initial.sourceText, CHUNK_SIZE, CHUNK_OVERLAP);
    && s.sourceText == initial.sourceText && s.chunks == c
    && s.finalOutput == None
    && s.translatedChunks == initial.translatedChunks + done
    && s.currentIndex == |done|
    && s.contextBuffer == ContextBefore(done, |done|)
    && Agrees(c, step, done)
  }

  /** Init leaves the run at its start, with nothing translated. */
  lemma InitStartsRun(initial: TranslationState, split: Splitter, step: ChunkTranslator)
    ensures Midway(initial, split, step, ApplyUpdate(initial, InitNode(initial, split)), [])
  {
  }

  /** What a successful `translate_node` does to the state, with its one translation
      being the step's result for the chunk under the cursor. */
  lemma TranslateNodeOk(s: TranslationState, llm: Llm, u: Update)
    requires 0 <= s.currentIndex && TranslateNode(s, llm) == Ok(u)
    ensures s.currentIndex < |s.chunks| && |Appended(u)| == 1
    ensures StepWith(llm)(s.chunks[s.currentIndex], s.contextBuffer) == Ok(Appended(u)[0])
    ensures ApplyUpdate(s, u)
         == s.(currentIndex := s.currentIndex + 1,
               translatedChunks := s.translatedChunks + [Appended(u)[0]],
               contextBuffer := NextContext(Appended(u)[0]))
  {
    var i := s.currentIndex;
    assert StepWith(llm)(s.chunks[i], s.contextBuffer) == TranslateChunk(s.chunks[i], s.contextBuffer, llm);
  }

  /** Recording the step's translation of the chunk under the cursor moves the run on by
      that translation. */
  lemma MidwaySnoc(initial: TranslationState, split: Splitter, step: ChunkTranslator,
                   s: TranslationState, done: seq<string>, t: string)
    requires Midway(initial, split, step, s, done)
    requires |done| < |s.chunks| && step(s.chunks[|done|], s.contextBuffer) == Ok(t)
    ensures Midway(initial, split, step,
                   s.(currentIndex := |done| + 1,
                      translatedChunks := s.translatedChunks + [t],
                      contextBuffer := NextContext(t)),
                   done + [t])
  {
    AgreesSnoc(s.chunks, step, done, t);
    ContextBeforeSnoc(done, t, |done|);
  }

  /** A successful translate step moves the run on by the one translation it appends. */
  lemma TranslateStepOk(initial: TranslationState, split: Splitter, llm: Llm,
                        s: TranslationState, done: seq<string>, u: Update)
    requires Midway(initial, split, StepWith(llm), s, done)
    requires TranslateNode(s, llm) == Ok(u)
    ensures |done| < |split(initial.sourceText, CHUNK_SIZE, CHUNK_OVERLAP)| && |Appended(u)| == 1
    ensures Midway(initial, split, StepWith(llm), ApplyUpdate(s, u), done + [Appended(u)[0]])
  {
    TranslateNodeOk(s, llm, u);
    MidwaySnoc(initial, split, StepWith(llm), s, done, Appended(u)[0]);
  }

  /** A failed translate step stops the run there: with the model's message at chunk
      `|done|`, or, when the chunk list is empty, with the index error. */
  lemma TranslateStepErr(initial: TranslationState, split: Splitter, llm: Llm,
                         s: TranslationState, done: seq<string>, m: string)
    requires Midway(initial, split, StepWith(llm), s, done)
    requires var c := split(initial.sourceText, CHUNK_SIZE, CHUNK_OVERLAP); |done| < |c| || c == []
    requires TranslateNode(s, llm) == Err(m)
    ensures var c := split(initial.sourceText, CHUNK_SIZE, CHUNK_OVERLAP);
      && (c == [] ==> m == INDEX_ERROR)
      && (c != [] ==> FailsAt(c, StepWith(llm), done, m))
    ensures Pipeline(initial, split, llm) == Err(m)
  {
    var c := split(initial.sourceText, CHUNK_SIZE, CHUNK_OVERLAP);
    if c != [] {
      assert StepWith(llm)(c[|done|], s.contextBuffer) == TranslateChunk(c[|done|], s.contextBuffer, llm);
      assert FailsAt(c, StepWith(llm), done, m);
      RunFails(c, StepWith(llm), m);
    }
  }

  /** Merging once every chunk is translated yields the state `Pipeline` describes. */
  lemma PipelineAtMerge(initial: TranslationState, split: Splitter, llm: Llm,
                        s: TranslationState, done: seq<string>)
    requires Midway(initial, split, StepWith(llm), s, done)
    requires var c := split(initial.sourceText, CHUNK_SIZE, CHUNK_OVERLAP); c != [] && |done| == |c|
    ensures Pipeline(initial, split, llm) == Ok(ApplyUpdate(s, MergeNode(s)))
  {
    var c := split(initial.sourceText, CHUNK_SIZE, CHUNK_OVERLAP);
    TranslationsFollowChunks(c, StepWith(llm), done);
  }

  /** The compiled graph: runs the nodes one superstep at a time on one state, merging
      each node's update into it. `trace` lists the nodes started, in order. */
  class TranslationGraph {
    const split: Splitter
    const llm: Llm
    var state: TranslationState
    var next: GraphNode
    ghost var trace: seq<GraphNode>

    constructor (split: Splitter, llm: Llm)
      ensures this.split == split && this.llm == llm
      ensures next == End && trace == []
    {
      this.split := split;
      this.llm := llm;
      state := TranslationState("", [], 0, [], "", None);
      next := End;
      trace := [];
    }

    /** `init_node` and its edge: splits the text and moves on to translate. */
    method RunInit()
      requires next == Init
      modifies this
      ensures trace == old(trace) + [Init]
      ensures state == ApplyUpdate(old(state), InitNode(old(state), split)) && next == Translate
    {
      trace := trace + [Init];
      state := ApplyUpdate(state, InitNode(state, split));
      next := Translate;
    }

    /** `translate_node` and `should_continue`. A step that raises leaves the state and the
        position as they were. */
    method RunTranslate() returns (r: Result<()>)
      requires next == Translate
      modifies this
      ensures trace == old(trace) + [Translate]
      ensures r.Err? ==>
        TranslateNode(old(state), llm) == Err(r.message) && state == old(state) && next == Translate
      ensures r.Ok? ==>
        && TranslateNode(old(state), llm).Ok?
        && state == ApplyUpdate(old(state), TranslateNode(old(state), llm).value)
        && next == ShouldContinue(state)
    {
      var step := TranslateNode(state, llm);
      trace := trace + [Translate];
      if step.Err? {
        r := Err(step.message);
      } else {
        state := ApplyUpdate(state, step.value);
        next := ShouldContinue(state);
        r := Ok(());
      }
    }

    /** `merge_node` and its edge to the exit. */
    method RunMerge()
      requires next == Merge
      modifies this
      ensures trace == old(trace) + [Merge]
      ensures state == ApplyUpdate(old(state), MergeNode(old(state))) && next == End
    {
      trace := trace + [Merge];
      state := ApplyUpdate(state, MergeNode(state));
      next := End;
    }

    /** The translate phase: translate steps until `should_continue` routes to merge, or
        a step raises. `done` is the translations made; a raising step is the one for
        chunk `|done|`, and it is the last step taken. */
    method TranslateChunks(ghost initial: TranslationState) returns (r: Result<()>, ghost done: seq<string>)
      requires next == Translate && trace == [Init]
      requires Midway(initial, split, StepWith(llm), state, [])
      modifies this
      ensures Midway(initial, split, StepWith(llm), state, done)
      ensures var c := split(initial.sourceText, CHUNK_SIZE, CHUNK_OVERLAP);
        r.Ok? ==> next == Merge && c != [] && |done| == |c| && trace == [Init] + Repeat(|c|)
      ensures var c := split(initial.sourceText, CHUNK_SIZE, CHUNK_OVERLAP);
        r.Err? ==>
          && Pipeline(initial, split, llm) == Err(r.message)
          && trace == [Init] + Repeat(|done| + 1)
          && (c == [] ==> r.message == INDEX_ERROR)
          && (c != [] ==> FailsAt(c, StepWith(llm), done, r.message))
    {
      ghost var c := split(initial.sourceText, CHUNK_SIZE, CHUNK_OVERLAP);
      done := [];
      r := Ok(());
      while next == Translate
        invariant next == Translate || next == Merge
        invariant Midway(initial, split, StepWith(llm), state, done)
        invariant trace == [Init] + Repeat(|done|)
        invariant next == Translate ==> |done| < |c| || c == []
        invariant next == Merge ==> c != [] && |done| == |c|
        decreases |c| - |done| + if next == Translate then 1 else 0
      {
        ghost var before := state;
        var res := RunTranslate();
        RepeatGrows(|done|);
        if res.Err? {
          TranslateStepErr(initial, split, llm, before, done, res.message);
          r := Err(res.message);
          return;
        }
        ghost var u := TranslateNode(before, llm).value;
        TranslateStepOk(initial, split, llm, before, done, u);
        done := done + [Appended(u)[0]];
      }
    }

    /** `translation_app.invoke(initial)`: runs the graph from its start until it reaches its
        exit or a node raises. Succeeds exactly when `Pipeline` does, with the same state,
        after init, one translate step per chunk, and one merge; fails at the first chunk
        whose call raises, after exactly one translate step for it and each chunk before. */
    method Invoke(initial: TranslationState) returns (r: Result<TranslationState>)
      modifies this
      ensures r == Pipeline(initial, split, llm)
      ensures r.Ok? ==>
        state == r.value && next == End && trace == [Init] + Repeat(|state.chunks|) + [Merge]
      ensures var c := split(initial.sourceText, CHUNK_SIZE, CHUNK_OVERLAP);
        r.Err? ==>
          && (c == [] ==> r.message == INDEX_ERROR && trace == [Init, Translate])
          && (c != [] ==> exists ts :: FailsAt(c, StepWith(llm), ts, r.message)
                                      && trace == [Init] + Repeat(|ts| + 1))
    {
      state, next := initial, Init;
      trace := [];
      // START -> init_node; the edge from init_node to translate_node is unconditional
      RunInit();
      InitStartsRun(initial, split, StepWith(llm));
      // translate_node, then should_continue, until it routes to merge_node
      var translated, done := TranslateChunks(initial);
      if translated.Err? {
        r := Err(translated.message);
        ghost var c := split(initial.sourceText, CHUNK_SIZE, CHUNK_OVERLAP);
        if c == [] {
          assert [Init] + Repeat(0 + 1) == [Init, Translate];
        } else {
          assert FailsAt(c, StepWith(llm), done, r.message);
        }
        return;
      }
      // merge_node -> END
      ghost var before := state;
      RunMerge();
      PipelineAtMerge(initial, split, llm, before, done);
      r := Ok(state);
    }
  }

  const OUTPUT_PREFIX: string := "translated_"
  const SUCCESS_PREFIX: string := "翻译成功！结果已保存至: "
  const ERROR_PREFIX: string := "翻译过程中出错: "

  /** The state the tool starts the graph from. */
  function InitialState(sourceText: string): TranslationState
  {
    TranslationState(sourceText, [], 0, [], "", None)
  }

  /** What the tool returns, and the file it wrote if any. */
  datatype ToolReply = ToolReply(message: string, saved: Option<SavedFile>)

  /** Reference definition of `document_translator_tool`: read, run, save, and turn any
      exception on the way into an error message. */
  function ToolOutcome(filePath: string, fs: FileSystem, split: Splitter, llm: Llm): (r: ToolReply)
    ensures fs.read(filePath).Err? ==> r == ToolReply(ERROR_PREFIX + fs.read(filePath).message, None)
    ensures r.saved.Some? ==>
      fs.read(filePath).Ok? && Pipeline(InitialState(fs.read(filePath).value), split, llm).Ok?
    ensures r.saved.None? ==>
      |ERROR_PREFIX| <= |r.message| && r.message[..|ERROR_PREFIX|] == ERROR_PREFIX
    ensures r.saved.Some? ==>
      && r.saved.value.path == OutputPath(OUTPUT_PREFIX + Basename(filePath))
      && r.message == SUCCESS_PREFIX + r.saved.value.path
  {
    match fs.read(filePath)
    case Err(m) => ToolReply(ERROR_PREFIX + m, None)
    case Ok(sourceText) =>
      match Pipeline(InitialState(sourceText), split, llm)
      case Err(m) => ToolReply(ERROR_PREFIX + m, None)
      case Ok(finalState) =>
        var finalText := finalState.finalOutput.value;
        match SaveTextToFile(fs, finalText, OUTPUT_PREFIX + Basename(filePath))
        case Err(m) => ToolReply(ERROR_PREFIX + m, None)
        case Ok(outputPath) => ToolReply(SUCCESS_PREFIX + outputPath, Some(SavedFile(outputPath, finalText)))
  }

  /** `document_translator_tool`: never raises; returns a success message naming the
      output file, or an error message. */
  method DocumentTranslatorTool(filePath: string, fs: FileSystem, split: Splitter, llm: Llm)
    returns (reply: ToolReply)
    ensures reply == ToolOutcome(filePath, fs, split, llm)
  {
    match fs.read(filePath)
    case Err(m) =>
      reply := ToolReply(ERROR_PREFIX + m, None);
    case Ok(sourceText) =>
      var app := new TranslationGraph(split, llm);
      var result := app.Invoke(InitialState(sourceText));
      match result
      case Err(m) =>
        reply := ToolReply(ERROR_PREFIX + m, None);
      case Ok(finalState) =>
        var finalText := finalState.finalOutput.value;
        var outputFilename := OUTPUT_PREFIX + Basename(filePath);
        match SaveTextToFile(fs, finalText, outputFilename)
        case Err(m) =>
          reply := ToolReply(ERROR_PREFIX + m, None);
        case Ok(outputPath) =>
          reply := ToolReply(SUCCESS_PREFIX + outputPath, Some(SavedFile(outputPath, finalText)));
  }

  /** An input the splitter turns into no chunks fails on `chunks[0]` in the first translate
      step: the tool answers with the index error and writes nothing. */
  lemma ToolEmptyChunksFails(filePath: string, fs: FileSystem, split: Splitter, llm: Llm, text: string)
    requires fs.read(filePath) == Ok(text)
    requires split(text, CHUNK_SIZE, CHUNK_OVERLAP) == []
    ensures ToolOutcome(filePath, fs, split, llm) == ToolReply(ERROR_PREFIX + INDEX_ERROR, None)
  {
  }

  /** When the chunks before chunk `|ts|` translate into `ts` and the model call for chunk
      `|ts|` raises `m`, the tool answers with `m` and writes nothing. */
  lemma ToolTranslationFails(filePath: string, fs: FileSystem, split: Splitter, llm: Llm,
                             text: string, ts: seq<string>, m: string)
    requires fs.read(filePath) == Ok(text)
    requires FailsAt(split(text, CHUNK_SIZE, CHUNK_OVERLAP), StepWith(llm), ts, m)
    ensures ToolOutcome(filePath, fs, split, llm) == ToolReply(ERROR_PREFIX + m, None)
  {
    RunFails(split(text, CHUNK_SIZE, CHUNK_OVERLAP), StepWith(llm), m);
  }

  /** A run of the tool's initial state in which every chunk translates into `ts` ends with
      their join as the final output. */
  lemma ToolRunSucceeds(text: string, split: Splitter, llm: Llm, ts: seq<string>)
    requires split(text, CHUNK_SIZE, CHUNK_OVERLAP) != []
    requires TranslateAll(split(text, CHUNK_SIZE, CHUNK_OVERLAP), "", StepWith(llm)) == Ok(ts)
    ensures Pipeline(InitialState(text), split, llm).Ok?
    ensures Pipeline(InitialState(text), split, llm).value.finalOutput == Some(Join(PARAGRAPH_BREAK, ts))
  {
    assert [] + ts == ts;
  }

  /** When every chunk translates but the write of the result fails with `m`, the tool
      answers with `m` and reports no file. */
  lemma ToolWriteFails(filePath: string, fs: FileSystem, split: Splitter, llm: Llm,
                       text: string, ts: seq<string>, m: string)
    requires fs.read(filePath) == Ok(text)
    requires split(text, CHUNK_SIZE, CHUNK_OVERLAP) != []
    requires TranslateAll(split(text, CHUNK_SIZE, CHUNK_OVERLAP), "", StepWith(llm)) == Ok(ts)
    requires fs.write(OutputPath(OUTPUT_PREFIX + Basename(filePath)), Join(PARAGRAPH_BREAK, ts)) == Err(m)
    ensures ToolOutcome(filePath, fs, split, llm) == ToolReply(ERROR_PREFIX + m, None)
  {
    ToolRunSucceeds(text, split, llm, ts);
  }

  /** When every chunk translates and the write succeeds, the tool writes the translations
      joined by blank lines, in chunk order, to `temp/translated_<basename>` and names
      that path in its message. */
  lemma ToolWritesJoinedTranslations(filePath: string, fs: FileSystem, split: Splitter, llm: Llm,
                                     text: string, ts: seq<string>)
    requires fs.read(filePath) == Ok(text)
    requires split(text, CHUNK_SIZE, CHUNK_OVERLAP) != []
    requires TranslateAll(split(text, CHUNK_SIZE, CHUNK_OVERLAP), "", StepWith(llm)) == Ok(ts)
    requires fs.write(OutputPath(OUTPUT_PREFIX + Basename(filePath)), Join(PARAGRAPH_BREAK, ts)).Ok?
    ensures var path := OutputPath(OUTPUT_PREFIX + Basename(filePath));
      ToolOutcome(filePath, fs, split, llm)
      == ToolReply(SUCCESS_PREFIX + path, Some(SavedFile(path, Join(PARAGRAPH_BREAK, ts))))
  {
    ToolRunSucceeds(text, split, llm, ts);
  }
}
