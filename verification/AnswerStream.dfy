/** Streaming an answer: the text shown, the text remembered and the text cached are the same. */
module AnswerStream {
  import opened Prelude
  import opened CacheKey
  import opened AnswerCache

  /** What the model client may emit. */
  datatype Chunk = Text(text: string) | NotText

  datatype Failure = Authentication | RateLimit | ModelNotFound | OtherFailure

  /** The chunks, and the exception that ends them early, if any. */
  datatype Generation = Generation(chunks: seq<Chunk>, failure: Option<Failure>)

  datatype Decision = Decision(
    query: string,
    retrievalQuery: string,
    context: string,
    sources: seq<string>,
    results: nat,
    history: string,
    generation: Option<nat>,
    error: Option<string>,
    busy: bool)

  predicate HasResults(d: Decision) { d.error.None? && !Blank(d.context) && d.results > 0 }

  datatype Meta = Meta(
    content: Option<string>,
    sources: seq<string>,
    interrupted: bool,
    failed: bool,
    empty: bool,
    stale: bool,
    reject: bool,
    fromCache: bool,
    cacheDisabled: bool)

  const NO_META := Meta(None, [], false, false, false, false, false, false, false)

  function Notice(content: string): Meta { NO_META.(content := Some(content)) }

  const INTERRUPTION := "\n\n---\n\n⚠️ 回答生成中断，请稍后重试。"
  const GENERATION_ERROR := "抱歉，生成回答时出现错误，请稍后重试。"
  const EMPTY_ANSWER := "抱歉，未能生成有效回答，请重新提问。"
  const STALE := "知识库刚刚完成更新，请重新提交问题以使用最新资料。"
  const BUSY := "知识库正在更新，请稍后重试。"
  const UNRESOLVED := "当前知识库存在未确认生效关系的文档，普通问答已暂停。"
  const UNAVAILABLE := "抱歉，知识库检索服务暂时不可用，请稍后重试。"
  const DRAFT_DISABLED := "基于资料起草功能当前未启用。"
  const DRAFT_BUSY := "知识库正在更新，请稍后再尝试基于资料起草。"
  const DRAFT_UNAVAILABLE := "抱歉，起草所需资料已不可用，请重新提问后再试。"
  const GENERAL_INTERRUPTION := "\n\n---\n\n⚠️ 通用回答生成中断，请稍后重试。"
  const GENERAL_EMPTY := "抱歉，通用办公回答未能生成有效内容，请稍后重试。"

  function Reject(query: string): string {
    "抱歉，知识库中未找到与“" + query + "”直接相关的资料。\n\n请上传相关文档或换一种问法后重试。"
  }

  function FailureMessage(f: Failure): string {
    match f
    case Authentication => "通用办公模型鉴权失败，请检查 DashScope API Key 配置后重试。"
    case RateLimit => "通用办公模型当前请求过多或额度不足，请稍后重试。"
    case ModelNotFound => "通用办公模型配置不可用，请检查模型名称后重试。"
    case OtherFailure => "抱歉，通用办公回答暂时不可用，请稍后重试。"
  }

  // ---- The text of an answer ----

  /** The non-empty texts among the chunks. */
  function Texts(chunks: seq<Chunk>): seq<string> {
    if chunks == [] then []
    else if chunks[0].NotText? || chunks[0].text == "" then Texts(chunks[1..])
    else [chunks[0].text] + Texts(chunks[1..])
  }

  /** Leading blank texts are not shown; from the first solid one on, everything is. */
  function FromFirstSolid(texts: seq<string>): seq<string> {
    if texts == [] then []
    else if Blank(texts[0]) then FromFirstSolid(texts[1..])
    else texts
  }

  function Shown(chunks: seq<Chunk>): seq<string> { FromFirstSolid(Texts(chunks)) }

  function Body(chunks: seq<Chunk>): string { Concat(Shown(chunks)) }

  lemma {:induction false} TextsOfMore(chunks: seq<Chunk>, c: Chunk)
    ensures Texts(chunks + [c]) == Texts(chunks) + if c.NotText? || c.text == "" then [] else [c.text]
  {
    if chunks == [] {
      assert [c][1..] == [];
    } else {
      assert (chunks + [c])[1..] == chunks[1..] + [c];
      TextsOfMore(chunks[1..], c);
    }
  }

  lemma {:induction false} FromFirstSolidOfMore(texts: seq<string>, t: string)
    ensures FromFirstSolid(texts + [t]) ==
      FromFirstSolid(texts) + if FromFirstSolid(texts) == [] && Blank(t) then [] else [t]
  {
    if texts == [] {
      assert [t][1..] == [];
    } else if Blank(texts[0]) {
      assert (texts + [t])[1..] == texts[1..] + [t];
      FromFirstSolidOfMore(texts[1..], t);
    }
  }

  lemma {:induction false} TextsAreNotEmpty(chunks: seq<Chunk>)
    ensures forall i :: 0 <= i < |Texts(chunks)| ==> Texts(chunks)[i] != ""
  {
    if chunks != [] { TextsAreNotEmpty(chunks[1..]); }
  }

  lemma {:induction false} FirstShownIsSolid(texts: seq<string>)
    ensures FromFirstSolid(texts) != [] ==> !Blank(FromFirstSolid(texts)[0])
  {
    if texts != [] { FirstShownIsSolid(texts[1..]); }
  }

  /** Something was shown exactly when the text is not blank, and exactly when it is not empty. */
  lemma SolidOrNothing(chunks: seq<Chunk>)
    ensures Shown(chunks) == [] <==> Body(chunks) == ""
    ensures Shown(chunks) == [] <==> Blank(Body(chunks))
  {
    var shown := Shown(chunks);
    FirstShownIsSolid(Texts(chunks));
    if shown != [] {
      assert Body(chunks) == shown[0] + Concat(shown[1..]);
      var i :| 0 <= i < |shown[0]| && !IsSpace(shown[0][i]);
      assert Body(chunks)[i] == shown[0][i];
    }
  }

  /** One more chunk: what the loop appends. */
  lemma ShownOfMore(chunks: seq<Chunk>, c: Chunk)
    ensures Shown(chunks + [c]) == Shown(chunks) +
      if c.NotText? || c.text == "" || (Body(chunks) == "" && Blank(c.text)) then [] else [c.text]
  {
    TextsOfMore(chunks, c);
    SolidOrNothing(chunks);
    if c.NotText? || c.text == "" {
      assert Texts(chunks + [c]) == Texts(chunks);
    } else {
      FromFirstSolidOfMore(Texts(chunks), c.text);
    }
  }

  /** The text after a failure never looks like the fixed error message, whatever was shown. */
  lemma InterruptedIsNotTheError(shown: string)
    requires shown != ""
    ensures shown + INTERRUPTION != GENERATION_ERROR
  {
    assert |INTERRUPTION| > |GENERATION_ERROR|;
  }

  // ---- Where cached answers come from ----

  /** A finished generation whose text was handed to the cache. */
  datatype Publication = Publication(request: Request, chunks: seq<Chunk>, answer: Answer)

  predicate Complete(p: Publication) { p.answer.content == Body(p.chunks) && !Blank(p.answer.content) }

  predicate Explains(p: Publication, deployment: Deployment, digest: string -> string, write: (Key, Answer)) {
    Complete(p) && write == (MakeKey(deployment, digest, p.request), p.answer)
  }

  ghost predicate SameRequest(r: Request, r': Request) {
    SameQuestion(r, r') && r.enhanced == r'.enhanced && r.history == r'.history && r.generation == r'.generation && r.mode == r'.mode
  }

  /** The whole text, with its sources, of an answer that was generated for the same questions, history, mode and
      generation, by whichever request. */
  ghost predicate Replayable(published: set<Publication>, request: Request, answer: Answer) {
    exists p :: p in published && Complete(p) && SameRequest(p.request, request) && p.answer == answer
  }

  /** Every write to the cache was one of a complete answer under the key of its request. */
  ghost predicate ForAnswers(explains: (Publication, (Key, Answer)) -> bool, deployment: Deployment, digest: string -> string) {
    forall p, w :: explains(p, w) <==> Explains(p, deployment, digest, w)
  }

  /** What the cache holds under a request's key can be replayed for it. */
  lemma WritesAreReplayable(published: set<Publication>, explains: (Publication, (Key, Answer)) -> bool, deployment: Deployment,
                            digest: string -> string, writes: set<(Key, Answer)>, request: Request, answer: Answer)
    requires SoundDigest(digest) && ForAnswers(explains, deployment, digest) && AllExplained(published, explains, writes)
    requires (MakeKey(deployment, digest, request), answer) in writes
    ensures Replayable(published, request, answer)
  {
    var w := (MakeKey(deployment, digest, request), answer);
    var p :| p in published && explains(p, w);
    assert Explains(p, deployment, digest, w);
    EqualKeysMeanSameRequest(deployment, deployment, digest, p.request, request);
  }

  function RequestOf(d: Decision, mode: string, generation: nat): Request {
    Request(d.query, d.retrievalQuery, d.history, generation, mode)
  }

  /** What a fresh generation makes the user see when nobody leaves. */
  function Streamed(g: Generation): seq<string> {
    if g.failure.Some? then (if Shown(g.chunks) == [] then [GENERATION_ERROR] else Shown(g.chunks) + [INTERRUPTION])
    else if Shown(g.chunks) == [] then [EMPTY_ANSWER]
    else Shown(g.chunks)
  }

  /** The record kept for it. */
  predicate Remembered(m: Meta, g: Generation, sources: seq<string>) {
    && (m.failed <==> g.failure.Some? || Shown(g.chunks) == [])
    && (m.interrupted <==> g.failure.Some? && Shown(g.chunks) != [])
    && (m.empty <==> g.failure.None? && Shown(g.chunks) == [])
    && m.sources == (if m.failed then [] else sources)
    && !m.fromCache && !m.stale && !m.reject
  }

  class RagService {
    const deployment: Deployment
    const digest: string -> string
    const cache: CacheService<Publication>
    var lastMeta: Meta
    ghost var published: seq<Publication>     // what this service itself handed to the cache

    ghost predicate Valid()
      reads this, cache, cache.table, cache.generations
    {
      && cache.Valid() && SoundDigest(digest)
      && ForAnswers(cache.explains, deployment, digest)
    }

    /** Since the beginning of the call the generation has been `g` throughout, as far as that matters. */
    twostate predicate StoodStill(g: Option<nat>)
      reads cache.generations
    {
      Quiet(cache.generations.history, |old(cache.generations.history)|, g)
    }

    /** A cache that survived a restart holds answers published earlier. */
    constructor (deployment: Deployment, digest: string -> string, cache: CacheService<Publication>)
      requires SoundDigest(digest) && cache.Valid() && ForAnswers(cache.explains, deployment, digest)
      ensures Valid() && this.cache == cache && published == [] && lastMeta == NO_META
    {
      this.deployment, this.digest, this.cache, lastMeta, published := deployment, digest, cache, NO_META, [];
    }

    /** The chunk loop. `patience` is the number of texts after which the consumer closes the stream. */
    method StreamChunks(chunks: seq<Chunk>, patience: nat) returns (yielded: seq<string>, full: string, closed: bool)
      ensures full == Concat(yielded)
      ensures !closed ==> yielded == Shown(chunks)
      ensures closed ==> yielded <= Shown(chunks) && |yielded| == patience
    {
      yielded, full, closed := [], "", false;
      for i := 0 to |chunks|
        invariant yielded == Shown(chunks[..i]) && full == Concat(yielded)
      {
        assert chunks[..i + 1] == chunks[..i] + [chunks[i]];
        ShownOfMore(chunks[..i], chunks[i]);
        ShownOfPrefix(chunks, i + 1);
        if chunks[i].NotText? || chunks[i].text == "" { continue; }
        if full == "" && Blank(chunks[i].text) { continue; }
        ConcatMore(yielded, chunks[i].text);
        full := full + chunks[i].text;
        yielded := yielded + [chunks[i].text];
        if |yielded| == patience { return yielded, full, true; }
      }
      assert chunks[..|chunks|] == chunks;
    }

    /** After the stream ended: the closing text, the record, and the one place that fills the cache. */
    method Conclude(d: Decision, request: Request, g: Generation, shown: seq<string>, full: string, now: real)
      returns (extra: seq<string>)
      requires Valid() && shown == Shown(g.chunks) && full == Concat(shown)
      modifies this`lastMeta, this`published, cache, cache.table, cache.generations
      ensures Valid() && shown + extra == Streamed(g)
      ensures lastMeta.content == Some(Concat(shown + extra)) && Remembered(lastMeta, g, d.sources)
      ensures old(cache.generations.history) <= cache.generations.history
      ensures CacheStory(cache.shared, old(published), published, old(cache.writes), cache.writes, request, g, d.sources)
      ensures published != old(published) ==> cache.enabled && SeenSince(cache.generations.history, |old(cache.generations.history)|, d.generation)
      ensures g.failure.None? && !Blank(full) && cache.enabled && StoodStill(d.generation) ==>
        published != old(published) && (cache.Working() ==> cache.Holds(MakeKey(deployment, digest, request), Answer(full, d.sources)))
    {
      SolidOrNothing(g.chunks);
      if g.failure.Some? {
        ConcatMore(shown, INTERRUPTION);
        var hadOutput := !Blank(full);
        var content := if hadOutput then full + INTERRUPTION else GENERATION_ERROR;
        if hadOutput { InterruptedIsNotTheError(full); }
        lastMeta := Notice(content).(interrupted := hadOutput, failed := true);
        extra := if content == GENERATION_ERROR then [content] else [INTERRUPTION];
        if !hadOutput {
          assert shown + extra == [content];
          ConcatOne(content);
        }
        return;
      }
      if Blank(full) {
        lastMeta := Notice(EMPTY_ANSWER).(empty := true, failed := true);
        extra := [EMPTY_ANSWER];
        assert shown + extra == [EMPTY_ANSWER];
        ConcatOne(EMPTY_ANSWER);
        return;
      }
      extra := [];
      assert shown + extra == shown;
      StoreAnswer(d, request, g, full, now);
      lastMeta := Notice(full).(sources := d.sources, cacheDisabled := !cache.enabled);
    }

    /** The answer is cached only if the knowledge base is still the one it was made from. */
    method StoreAnswer(d: Decision, request: Request, g: Generation, full: string, now: real)
      requires Valid() && g.failure.None? && full == Body(g.chunks) && !Blank(full)
      modifies this`published, cache, cache.table, cache.generations
      ensures Valid() && old(cache.generations.history) <= cache.generations.history
      ensures CacheStory(cache.shared, old(published), published, old(cache.writes), cache.writes, request, g, d.sources)
      ensures published != old(published) ==> cache.enabled && SeenSince(cache.generations.history, |old(cache.generations.history)|, d.generation)
      ensures cache.enabled && StoodStill(d.generation) ==>
        published != old(published) && (cache.Working() ==> cache.Holds(MakeKey(deployment, digest, request), Answer(full, d.sources)))
    {
      var moved := HasMoved(d);
      ghost var seen := cache.generations.history;
      if !moved && cache.enabled {
        var answer := Answer(full, d.sources);
        ghost var publication := Publication(request, g.chunks, answer);
        assert Explains(publication, deployment, digest, (MakeKey(deployment, digest, request), answer));
        published := published + [publication];
        var ok, how, first, last := cache.Set(MakeKey(deployment, digest, request), answer, publication, d.generation, now);
        assert d.generation.Some? ==> cache.generations.history[|seen| - 1] == d.generation.value;
      }
    }

    /** Is the knowledge base no longer the one the decision was made from? */
    method HasMoved(d: Decision) returns (moved: bool)
      requires Valid()
      modifies cache.generations
      ensures Valid() && old(cache.generations.history) <= cache.generations.history
      ensures d.generation.None? ==> !moved
      ensures d.generation.Some? ==> |old(cache.generations.history)| < |cache.generations.history|
      ensures d.generation.Some? ==> (moved <==> Now(cache.generations.history) != d.generation.value)
    {
      moved := false;
      if d.generation.Some? {
        var current, at := cache.generations.Read();
        moved := current != d.generation.value;
      }
    }

    /** The key's generation, when the decision does not carry one, is read now. */
    method KeyGeneration(d: Decision) returns (g: nat)
      requires Valid()
      modifies cache.generations
      ensures Valid() && (d.generation.Some? ==> g == d.generation.value)
      ensures old(cache.generations.history) <= cache.generations.history
    {
      if d.generation.Some? { return d.generation.value; }
      ghost var at;
      g, at := cache.generations.Read();
    }

    method Lookup(d: Decision, request: Request, now: real) returns (cached: Option<Answer>)
      requires Valid()
      modifies cache, cache.table, cache.generations
      ensures Valid() && (!cache.shared ==> cache.writes == old(cache.writes))
      ensures old(cache.generations.history) <= cache.generations.history
      ensures cached.Some? ==> cache.enabled && Replayable(cache.causes, request, cached.value)
      ensures !cache.shared && cache.enabled && StoodStill(d.generation) ==>
        var key := MakeKey(deployment, digest, request);
        key in old(cache.values) ==> cached == Some(old(cache.values)[key])
    {
      ghost var first, last;
      cached, first, last := cache.Get(MakeKey(deployment, digest, request), d.generation, now);
      if cached.Some? {
        WritesAreReplayable(cache.causes, cache.explains, deployment, digest, cache.writes, request, cached.value);
      }
    }

    /** Looks the request up under the generation of the decision, or under the present one. */
    method FindCached(d: Decision, mode: string, now: real) returns (cached: Option<Answer>, request: Request)
      requires Valid()
      modifies cache, cache.table, cache.generations
      ensures Valid() && (!cache.shared ==> cache.writes == old(cache.writes))
      ensures old(cache.generations.history) <= cache.generations.history
      ensures request == RequestOf(d, mode, request.generation)
      ensures d.generation.Some? ==> request.generation == d.generation.value
      ensures cached.Some? ==> cache.enabled && Replayable(cache.causes, request, cached.value)
      ensures !cache.shared && cache.enabled && StoodStill(d.generation) ==>
        var key := MakeKey(deployment, digest, request);
        key in old(cache.values) ==> cached == Some(old(cache.values)[key])
    {
      var g := KeyGeneration(d);
      request := RequestOf(d, mode, g);
      cached := Lookup(d, request, now);
    }

    /** What the cache holds for the request, checked once more before it is shown. */
    method FromCache(d: Decision, mode: string, now: real) returns (yielded: seq<string>, request: Request, moved: bool)
      requires Valid() && cache.enabled
      modifies this`lastMeta, cache, cache.table, cache.generations
      ensures Valid() && (!cache.shared ==> cache.writes == old(cache.writes))
      ensures old(cache.generations.history) <= cache.generations.history
      ensures request == RequestOf(d, mode, request.generation)
      ensures d.generation.Some? ==> request.generation == d.generation.value
      ensures yielded == [] ==> lastMeta == old(lastMeta)
      ensures yielded != [] ==> NoticeOrReplay(cache.causes, request, yielded, lastMeta) && lastMeta.fromCache && !lastMeta.stale && !moved
      ensures yielded != [] && d.generation.Some? ==> Now(cache.generations.history) == d.generation.value
      ensures moved ==> d.generation.Some? && Now(cache.generations.history) != d.generation.value
      ensures moved ==> |old(cache.generations.history)| < |cache.generations.history|
      ensures !cache.shared && d.generation.Some? && StoodStill(d.generation) ==>
        !moved && MustReplay(old(cache.values), MakeKey(deployment, digest, RequestOf(d, mode, d.generation.value)), yielded, lastMeta)
    {
      yielded, moved := [], false;
      var cached;
      cached, request := FindCached(d, mode, now);
      if cached.Some? {
        moved := HasMoved(d);
        if !moved {
          lastMeta := Notice(cached.value.content).(sources := cached.value.sources, fromCache := true);
          ConcatOne(cached.value.content);
          yielded := [cached.value.content];
        }
      }
    }

    /** The checks before generating: a stale snapshot, then a cached answer. */
    method TryReplay(d: Decision, mode: string, now: real) returns (yielded: seq<string>, request: Request)
      requires Valid()
      modifies this`lastMeta, cache, cache.table, cache.generations
      ensures Valid() && (!cache.shared ==> cache.writes == old(cache.writes))
      ensures old(cache.generations.history) <= cache.generations.history
      ensures yielded == [] ==> Timely(cache.generations.history, |old(cache.generations.history)|, |cache.generations.history|, d.generation, false, false)
      ensures yielded != [] ==>
        Timely(cache.generations.history, |old(cache.generations.history)|, |cache.generations.history|, d.generation, lastMeta.stale, lastMeta.fromCache)
      ensures request == RequestOf(d, mode, request.generation)
      ensures d.generation.Some? ==> request.generation == d.generation.value
      ensures yielded == [] ==> lastMeta.content == old(lastMeta.content)
      ensures yielded != [] ==> NoticeOrReplay(cache.causes, request, yielded, lastMeta)
      // an answer that is held is replayed as long as nothing moves
      ensures !cache.shared && cache.enabled && StoodStill(d.generation) && d.generation.Some? ==>
        MustReplay(old(cache.values), MakeKey(deployment, digest, RequestOf(d, mode, d.generation.value)), yielded, lastMeta)
    {
      ghost var from := |cache.generations.history|;
      yielded, request := [], RequestOf(d, mode, 0);
      if !cache.enabled { lastMeta := lastMeta.(cacheDisabled := true); }
      var moved := HasMoved(d);
      ghost var checked := cache.generations.history;
      if !moved && cache.enabled {
        yielded, request, moved := FromCache(d, mode, now);
        if yielded != [] {
          ReplayIsTimely(checked, cache.generations, from, d.generation);
          return;
        }
      }
      if moved {
        lastMeta := Notice(STALE).(stale := true);
        ConcatOne(STALE);
        return [STALE], RequestOf(d, mode, d.generation.value);
      }
      CheckedIsTimely(checked, cache.generations.history, from, d.generation);
      if d.generation.Some? { request := RequestOf(d, mode, d.generation.value); }
    }

    /** Generate, show and remember. */
    method Generate(d: Decision, request: Request, g: Generation, patience: nat, now: real) returns (yielded: seq<string>, closed: bool)
      requires Valid()
      modifies this`lastMeta, this`published, cache, cache.table, cache.generations
      ensures Valid() && old(cache.generations.history) <= cache.generations.history
      ensures closed ==> yielded <= Shown(g.chunks) && |yielded| == patience && lastMeta == old(lastMeta)
      ensures !closed ==> yielded == Streamed(g) && lastMeta.content == Some(Concat(yielded)) && Remembered(lastMeta, g, d.sources)
      ensures CacheStory(cache.shared, old(published), published, old(cache.writes), cache.writes, request, g, d.sources)
      ensures published != old(published) ==> !closed && yielded == Shown(g.chunks)
      ensures published != old(published) ==> cache.enabled && SeenSince(cache.generations.history, |old(cache.generations.history)|, d.generation)
      ensures !closed && Fresh(lastMeta) && cache.enabled && StoodStill(d.generation) ==>
        published != old(published) && (cache.Working() ==> cache.Holds(MakeKey(deployment, digest, request), Answer(Concat(yielded), d.sources)))
    {
      var full, extra;
      yielded, full, closed := StreamChunks(g.chunks, patience);
      if closed { return; }
      SolidOrNothing(g.chunks);
      extra := Conclude(d, request, g, yielded, full, now);
      yielded := yielded + extra;
    }

    /** Strict generation from a decision: replay, or stream and remember. */
    method StreamFromDecision(d: Decision, mode: string, g: Generation, patience: nat, now: real)
      returns (yielded: seq<string>, closed: bool, ghost request: Request, ghost ready: nat)
      requires Valid()
      modifies this`lastMeta, this`published, cache, cache.table, cache.generations
      ensures Valid() && old(cache.generations.history) <= cache.generations.history
      ensures request == Request(d.query, d.retrievalQuery, d.history, request.generation, mode)
      ensures d.generation.Some? ==> request.generation == d.generation.value
      ensures !HasResults(d) ==> yielded == [Reject(d.query)] && !closed && lastMeta == old(lastMeta)
      ensures !HasResults(d) ==> cache.writes == old(cache.writes) && published == old(published)
      ensures HasResults(d) && !closed ==> lastMeta.content == Some(Concat(yielded))
      ensures HasResults(d) && !closed ==>
        NoticeOrReplay(cache.causes, request, yielded, lastMeta) || (yielded == Streamed(g) && Remembered(lastMeta, g, d.sources))
      ensures closed ==> yielded <= Shown(g.chunks) && |yielded| == patience && lastMeta.content == old(lastMeta.content)
      // when it is current, and when it says that it no longer is
      ensures HasResults(d) ==>
        Timely(cache.generations.history, |old(cache.generations.history)|, ready, d.generation, !closed && lastMeta.stale, !closed && lastMeta.fromCache)
      ensures HasResults(d) && !closed && StoodStill(d.generation) ==> !lastMeta.stale
      ensures CacheStory(cache.shared, old(published), published, old(cache.writes), cache.writes, request, g, d.sources)
      ensures published != old(published) ==> !closed && yielded == Shown(g.chunks)
      // what it leaves to the next one: a complete answer goes to the cache while the knowledge base stands still
      ensures published != old(published) ==> cache.enabled && SeenSince(cache.generations.history, ready, d.generation)
      ensures HasResults(d) && !closed && Fresh(lastMeta) && cache.enabled && StoodStill(d.generation) ==>
        published != old(published) && (cache.Working() ==> cache.Holds(MakeKey(deployment, digest, request), Answer(Concat(yielded), d.sources)))
      ensures HasResults(d) && d.generation.Some? && !cache.shared && cache.enabled && StoodStill(d.generation) ==>
        MustReplay(old(cache.values), MakeKey(deployment, digest, RequestOf(d, mode, d.generation.value)), yielded, lastMeta)
    {
      closed, request, ready := false, RequestOf(d, mode, if d.generation.Some? then d.generation.value else 0), 0;
      if !HasResults(d) { return [Reject(d.query)], false, request, 0; }
      ghost var from := |cache.generations.history|;
      var asked;
      yielded, asked := TryReplay(d, mode, now);
      request, ready := asked, |cache.generations.history|;
      ghost var before := cache.generations.history;
      if yielded != [] { return; }
      yielded, closed := Generate(d, asked, g, patience, now);
      TimelyLater(before, cache.generations.history, from, ready, d.generation);
    }

    /** One fixed text, remembered as shown. */
    method Say(m: Meta) returns (yielded: seq<string>)
      requires m.content.Some?
      modifies this`lastMeta
      ensures lastMeta == m && yielded == [m.content.value] && Concat(yielded) == m.content.value
    {
      lastMeta := m;
      ConcatOne(m.content.value);
      yielded := [m.content.value];
    }

    /** A question: refuse, or answer from what was retrieved. `d` is any outcome of the retrieval. */
    method AnswerStream(d: Decision, g: Generation, patience: nat, now: real)
      returns (yielded: seq<string>, closed: bool, ghost request: Request, ghost ready: nat)
      requires Valid()
      modifies this`lastMeta, this`published, cache, cache.table, cache.generations
      ensures Valid() && old(cache.generations.history) <= cache.generations.history
      ensures !closed ==> lastMeta.content == Some(Concat(yielded))
      // without results: one fixed text, and nothing is cached
      ensures d.busy ==> Says(yielded, closed, lastMeta, Notice(BUSY), BUSY)
      ensures !d.busy && d.error == Some("governance_unresolved") ==> Says(yielded, closed, lastMeta, Notice(UNRESOLVED).(failed := true), UNRESOLVED)
      ensures !d.busy && d.error.Some? && d.error.value != "governance_unresolved" ==>
        Says(yielded, closed, lastMeta, Notice(UNAVAILABLE).(failed := true), UNAVAILABLE)
      ensures !d.busy && d.error.None? && (Blank(d.context) || d.results == 0) ==>
        Says(yielded, closed, lastMeta, Notice(Reject(d.query)).(reject := true), Reject(d.query))
      ensures d.busy || d.error.Some? || Blank(d.context) || d.results == 0 ==> cache.writes == old(cache.writes) && published == old(published)
      // with results: the notice, a replay, or what was generated
      ensures Answerable(d) ==> request == Request(d.query, d.retrievalQuery, d.history, request.generation, "rag")
      ensures Answerable(d) && !closed ==>
        NoticeOrReplay(cache.causes, request, yielded, lastMeta) || (yielded == Streamed(g) && Remembered(lastMeta, g, d.sources))
      ensures closed ==> yielded <= Shown(g.chunks) && lastMeta.content == old(lastMeta.content)
      ensures Answerable(d) ==>
        Timely(cache.generations.history, |old(cache.generations.history)|, ready, d.generation, !closed && lastMeta.stale, !closed && lastMeta.fromCache)
      ensures !closed && StoodStill(d.generation) ==> !lastMeta.stale
      ensures CacheStory(cache.shared, old(published), published, old(cache.writes), cache.writes, request, g, d.sources)
      ensures published != old(published) ==> !closed && yielded == Shown(g.chunks)
      // what it leaves to the next one: a complete answer goes to the cache while the knowledge base stands still
      ensures published != old(published) ==> cache.enabled && SeenSince(cache.generations.history, ready, d.generation)
      ensures Answerable(d) && !closed && Fresh(lastMeta) && cache.enabled && StoodStill(d.generation) ==>
        published != old(published) && (cache.Working() ==> cache.Holds(MakeKey(deployment, digest, request), Answer(Concat(yielded), d.sources)))
      ensures Answerable(d) && d.generation.Some? && !cache.shared && cache.enabled && StoodStill(d.generation) ==>
        MustReplay(old(cache.values), MakeKey(deployment, digest, RequestOf(d, "rag", d.generation.value)), yielded, lastMeta)
    {
      closed, request, ready := false, RequestOf(d, "rag", 0), 0;
      if d.busy {
        yielded := Say(Notice(BUSY));
      } else if d.error == Some("governance_unresolved") {
        yielded := Say(Notice(UNRESOLVED).(failed := true));
      } else if d.error.Some? {
        yielded := Say(Notice(UNAVAILABLE).(failed := true));
      } else if !HasResults(d) {
        yielded := Say(Notice(Reject(d.query)).(reject := true));
      } else {
        yielded, closed, request, ready := StreamFromDecision(d, "rag", g, patience, now);
      }
    }

    /** Drafting from what is still retrievable; the history plays no part. */
    method DraftStream(enabled: bool, retrieved: Decision, g: Generation, patience: nat, now: real)
      returns (yielded: seq<string>, closed: bool, ghost request: Request, ghost ready: nat)
      requires Valid()
      modifies this`lastMeta, this`published, cache, cache.table, cache.generations
      ensures Valid() && old(cache.generations.history) <= cache.generations.history
      ensures !closed ==> lastMeta.content == Some(Concat(yielded))
      ensures !enabled ==> Says(yielded, closed, lastMeta, Notice(DRAFT_DISABLED), DRAFT_DISABLED)
      ensures enabled && retrieved.busy ==> Says(yielded, closed, lastMeta, Notice(DRAFT_BUSY), DRAFT_BUSY)
      ensures enabled && !retrieved.busy && !Answerable(retrieved) ==>
        Says(yielded, closed, lastMeta, Notice(DRAFT_UNAVAILABLE).(failed := true), DRAFT_UNAVAILABLE)
      ensures !enabled || !Answerable(retrieved) ==> cache.writes == old(cache.writes) && published == old(published)
      ensures enabled && Answerable(retrieved) && !closed ==>
        NoticeOrReplay(cache.causes, request, yielded, lastMeta) || (yielded == Streamed(g) && Remembered(lastMeta, g, retrieved.sources))
      ensures closed ==> yielded <= Shown(g.chunks) && lastMeta.content == old(lastMeta.content)
      ensures request == Request(retrieved.query, retrieved.retrievalQuery, "", request.generation, "draft")
      ensures enabled && Answerable(retrieved) ==>
        Timely(cache.generations.history, |old(cache.generations.history)|, ready, retrieved.generation, !closed && lastMeta.stale, !closed && lastMeta.fromCache)
      ensures !closed && StoodStill(retrieved.generation) ==> !lastMeta.stale
      ensures CacheStory(cache.shared, old(published), published, old(cache.writes), cache.writes, request, g, retrieved.sources)
      ensures published != old(published) ==> !closed && yielded == Shown(g.chunks)
      // what it leaves to the next one: a complete answer goes to the cache while the knowledge base stands still
      ensures published != old(published) ==> cache.enabled && SeenSince(cache.generations.history, ready, retrieved.generation)
      ensures enabled && Answerable(retrieved) && !closed && Fresh(lastMeta) && cache.enabled && StoodStill(retrieved.generation) ==>
        published != old(published) && (cache.Working() ==> cache.Holds(MakeKey(deployment, digest, request), Answer(Concat(yielded), retrieved.sources)))
      ensures enabled && Answerable(retrieved) && retrieved.generation.Some? && !cache.shared && cache.enabled && StoodStill(retrieved.generation) ==>
        MustReplay(old(cache.values), MakeKey(deployment, digest, RequestOf(retrieved.(history := ""), "draft", retrieved.generation.value)), yielded, lastMeta)
    {
      var d := retrieved.(history := "");
      closed, request, ready := false, RequestOf(d, "draft", 0), 0;
      if !enabled {
        yielded := Say(Notice(DRAFT_DISABLED));
      } else if d.busy {
        yielded := Say(Notice(DRAFT_BUSY));
      } else if d.error.Some? || !HasResults(d) {
        yielded := Say(Notice(DRAFT_UNAVAILABLE).(failed := true));
      } else {
        yielded, closed, request, ready := StreamFromDecision(d, "draft", g, patience, now);
      }
    }

    /** The explicit general answer: no sources, no cache. */
    method GeneralStream(g: Generation, patience: nat) returns (yielded: seq<string>, closed: bool)
      requires Valid()
      modifies this`lastMeta
      ensures Valid()
      ensures !closed ==> lastMeta.content == Some(Concat(yielded)) && lastMeta.sources == []
      ensures !closed && g.failure.None? && Shown(g.chunks) != [] ==> yielded == Shown(g.chunks) && !lastMeta.failed
      ensures !closed && g.failure.Some? ==> lastMeta.failed && lastMeta.interrupted
      ensures !closed && g.failure.Some? ==>
        yielded == Shown(g.chunks) + [if Shown(g.chunks) == [] then FailureMessage(g.failure.value) else GENERAL_INTERRUPTION]
      ensures !closed && g.failure.None? && Shown(g.chunks) == [] ==> yielded == [GENERAL_EMPTY] && lastMeta.failed && lastMeta.empty
      ensures !closed ==> Shown(g.chunks) <= yielded
      ensures closed ==> yielded <= Shown(g.chunks) && |yielded| == patience && lastMeta == old(lastMeta)
    {
      var full;
      yielded, full, closed := StreamChunks(g.chunks, patience);
      if closed { return; }
      SolidOrNothing(g.chunks);
      var hadOutput := yielded != [];
      if g.failure.Some? {
        var extra := if hadOutput then GENERAL_INTERRUPTION else FailureMessage(g.failure.value);
        ConcatMore(yielded, extra);
        var content := if hadOutput then full + GENERAL_INTERRUPTION else extra;
        assert content == Concat(yielded + [extra]);
        lastMeta := Notice(content).(interrupted := true, failed := true);
        yielded := yielded + [extra];
      } else if Blank(full) {
        yielded := Say(Notice(GENERAL_EMPTY).(empty := true, failed := true));
      } else {
        lastMeta := Notice(full);
      }
    }
  }

  /** One fixed text, remembered as given. */
  predicate Says(yielded: seq<string>, closed: bool, m: Meta, expected: Meta, text: string) {
    yielded == [text] && !closed && m == expected && expected.content == Some(text) && expected.sources == []
  }

  /** There is something to answer from. */
  predicate Answerable(d: Decision) { !d.busy && d.error.None? && !Blank(d.context) && d.results > 0 }

  /** Generated now, and complete. */
  predicate Fresh(m: Meta) { !m.stale && !m.fromCache && !m.failed }

  /** What is held under the key of a request is its answer. */
  ghost predicate MustReplay(values: map<Key, Answer>, key: Key, yielded: seq<string>, m: Meta) {
    key in values ==> yielded == [values[key].content] && m.fromCache && m.sources == values[key].sources
  }

  /** The generation was `g` at some instant since `from`. */
  ghost predicate SeenSince(history: seq<nat>, from: nat, g: Option<nat>) {
    g.Some? ==> exists at :: from <= at < |history| && history[at] == g.value
  }

  // ---- When an answer is current ----

  /** The generation at the last instant. */
  function Now(history: seq<nat>): nat
    requires history != []
  {
    history[|history| - 1]
  }

  /** Of a call that began at instant `from` and showed its first text at `ready`, for an answer
      made from generation `g`: the notice is shown only if the generation was another one at the
      last instant before; anything else only if it was `g` at some instant before; and a replay
      only if it was `g` all the time from some such instant on. */
  ghost predicate Timely(history: seq<nat>, from: nat, ready: nat, g: Option<nat>, stale: bool, replay: bool) {
    match g
    case None => !stale && ready <= |history|
    case Some(g) =>
      && from < ready <= |history|
      && (stale ==> history[ready - 1] != g)
      && (!stale ==> exists at :: from <= at < ready && history[at] == g)
      && (replay && !stale ==> SteadySince(history, g, from, ready - 1))
  }

  /** It was `g` from some instant not before `from` up to `last`. */
  ghost predicate SteadySince(history: seq<nat>, g: nat, from: nat, last: nat) {
    exists first :: from <= first && Steady(history, g, first, last)
  }

  lemma CheckedIsTimely(checked: seq<nat>, history: seq<nat>, from: nat, g: Option<nat>)
    requires checked <= history && (g.Some? ==> from < |checked| && Now(checked) == g.value)
    ensures Timely(history, from, |history|, g, false, false)
  {
    if g.Some? { assert history[|checked| - 1] == g.value; }
  }

  lemma ReplayIsTimely(checked: seq<nat>, generations: Generations, from: nat, g: Option<nat>)
    requires generations.Valid() && checked <= generations.history
    requires g.Some? ==> from < |checked| && Now(checked) == g.value && Now(generations.history) == g.value
    ensures Timely(generations.history, from, |generations.history|, g, false, true)
  {
    if g.Some? {
      var first, last := |checked| - 1, |generations.history| - 1;
      assert generations.history[first] == g.value;
      SteadyBetween(generations, first, last);
      assert Steady(generations.history, g.value, first, last);
    }
  }

  lemma TimelyLater(before: seq<nat>, history: seq<nat>, from: nat, ready: nat, g: Option<nat>)
    requires before <= history && Timely(before, from, ready, g, false, false)
    ensures Timely(history, from, ready, g, false, false)
  {
    if g.Some? {
      var at :| from <= at < ready && before[at] == g.value;
      assert history[at] == g.value;
    }
  }

  /** One text, remembered as shown: the notice that the knowledge base has moved on, or an
      answer generated earlier for the same request. */
  ghost predicate NoticeOrReplay(published: set<Publication>, request: Request, yielded: seq<string>, m: Meta) {
    && m.content == Some(Concat(yielded)) && !m.reject && !m.failed
    && (if m.stale then yielded == [STALE] && !m.fromCache
        else m.fromCache && |yielded| == 1 && Replayable(published, request, Answer(yielded[0], m.sources)))
  }

  /** Either nothing was handed to the cache, or the one complete answer of this stream was. */
  ghost predicate CacheStory(shared: bool, published: seq<Publication>, published': seq<Publication>, writes: set<(Key, Answer)>,
                             writes': set<(Key, Answer)>, request: Request, g: Generation, sources: seq<string>) {
    if published' == published then !shared ==> writes' == writes
    else
      && g.failure.None? && !Blank(Body(g.chunks))
      && published' == published + [Publication(request, g.chunks, Answer(Body(g.chunks), sources))]
  }

  lemma {:induction false} ShownOfPrefix(chunks: seq<Chunk>, n: nat)
    requires n <= |chunks|
    ensures Shown(chunks[..n]) <= Shown(chunks)
    decreases |chunks| - n
  {
    if n == |chunks| {
      assert chunks[..n] == chunks;
    } else {
      assert chunks[..n + 1] == chunks[..n] + [chunks[n]];
      ShownOfMore(chunks[..n], chunks[n]);
      ShownOfPrefix(chunks, n + 1);
    }
  }
}
