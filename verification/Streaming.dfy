/** The token loop of one request: context accounting, hidden reasoning, and text released as soon as it is valid
    UTF-8. */
module Streaming {
  import opened Options
  import opened Utf8
  import opened GpuLimits

  datatype Finish = Cancelled | EndOfSentence | Length
  datatype Failure = InvalidRequest | ContextExceeded | Internal
  datatype Event =
    | Chunk(sequence: nat, text: seq<Byte>, reasoning: bool)
    | Done(finish: Finish, prompt: nat, completion: nat)
    | Error(code: Failure)

  // What the rest of the program decides: validation, the prompt's ids, the special tokens, and where reasoning starts.
  datatype Request = Request(
    valid: bool, prompt: Option<seq<nat>>, maxTokens: nat, stop: Option<nat>, thinkEnd: Option<nat>, thinking: bool)

  // The outside world, step by step.
  datatype World = World(
    cancelPrompt: nat -> bool, cancel: nat -> bool, sample: nat -> nat, delivered: nat -> bool, runs: nat -> bool,
    bytes: nat -> seq<Byte>)

  // ----- What should be streamed -----

  // Whether the model still reasons after these tokens.
  function Thinking(tokens: seq<nat>, r: Request): bool {
    if tokens == [] then r.thinking
    else Thinking(tokens[..|tokens| - 1], r) && r.thinkEnd != Some(tokens[|tokens| - 1])
  }

  // The bytes of the tokens outside the reasoning.
  function Visible(tokens: seq<nat>, r: Request, bytes: nat -> seq<Byte>): seq<Byte> {
    if tokens == [] then []
    else
      var n := |tokens| - 1;
      Visible(tokens[..n], r, bytes) + if Thinking(tokens[..n], r) then [] else bytes(tokens[n])
  }

  // The text of the visible chunks.
  function Text(events: seq<Event>): seq<Byte> {
    if events == [] then []
    else
      var e := events[|events| - 1];
      Text(events[..|events| - 1]) + if e.Chunk? && !e.reasoning then e.text else []
  }

  // Chunks come first and are numbered from 0; only the first can be the reasoning marker.
  predicate Numbered(events: seq<Event>) {
    forall i :: 0 <= i < |events| && events[i].Chunk? ==>
      && events[i].sequence == i && (events[i].reasoning ==> i == 0 && events[i].text == [])
      && (!events[i].reasoning ==> events[i].text != [])
  }

  // The text is the longest valid prefix of all bytes, and the rest is pending.
  ghost predicate Splits(all: seq<Byte>, text: seq<Byte>, pending: seq<Byte>) {
    text + pending == all && |text| == ValidUpTo(all)
  }

  /** Bytes already released stay released: the next release is the valid prefix of what is pending. */
  lemma ReleaseContinues(all: seq<Byte>, text: seq<Byte>, pending: seq<Byte>, more: seq<Byte>)
    requires Splits(all, text, pending)
    ensures var next := pending + more;
      Splits(all + more, text + next[..ValidUpTo(next)], next[ValidUpTo(next)..])
  {
    TextIsValid(all, text, pending);
    ValidUpToContinues(text, pending + more);
    Regroup(all, text, pending, more, ValidUpTo(pending + more));
  }

  lemma TextIsValid(all: seq<Byte>, text: seq<Byte>, pending: seq<Byte>)
    requires Splits(all, text, pending)
    ensures Valid(text)
  {
    PrefixIsValid(all);
    assert all[..|text|] == text;
  }

  lemma Regroup(all: seq<Byte>, text: seq<Byte>, pending: seq<Byte>, more: seq<Byte>, v: nat)
    requires text + pending == all && v <= |pending + more|
    ensures all + more == text + (pending + more)
    ensures (text + (pending + more)[..v]) + (pending + more)[v..] == all + more
  {}

  // ----- The model -----

  datatype Call = Call(start: nat, tokens: nat)

  predicate InContext(c: Call) { 1 <= c.tokens <= MaxChunk && c.start + c.tokens <= Context }

  class Model {
    var position: nat
    ghost var calls: seq<Call>

    constructor ()
      ensures position == 0 && calls == []
    { position, calls := 0, []; }

    method Reset()
      modifies this
      ensures position == 0 && calls == old(calls)
    { position := 0; }

    // Refuses a chunk that is too long or does not fit, and may fail otherwise.
    method Forward(m: nat, runs: bool) returns (ok: bool)
      modifies this
      ensures calls == old(calls) + [Call(old(position), m)]
      ensures ok <==> InContext(Call(old(position), m)) && runs
      ensures position == old(position) + if ok then m else 0
    {
      calls := calls + [Call(position, m)];
      if m == 0 || m > MaxChunk || position + m > Context || !runs {
        return false;
      }
      position := position + m;
      return true;
    }
  }

  // ----- One request -----

  // `disconnected`: a chunk could not be delivered and the loop gave up.
  datatype Outcome = Outcome(
    events: seq<Event>, tokens: seq<nat>, pending: seq<Byte>, completion: nat, disconnected: bool)

  // Released text is the longest valid prefix of the visible bytes, and the rest is pending.
  ghost predicate Streamed(o: Outcome, r: Request, bytes: nat -> seq<Byte>) {
    Splits(Visible(o.tokens, r, bytes), Text(o.events), o.pending)
  }

  // The prompt, in chunks of at most 64.
  method Prefill(model: Model, prompt: nat, world: World) returns (end: Option<Event>)
    requires model.position == 0 && prompt <= Context
    modifies model
    ensures end.None? ==> model.position == prompt
    ensures end.Some? ==> end.value == Error(Internal) || end.value == Done(Cancelled, prompt, 0)
    ensures old(model.calls) <= model.calls && CallsInContext(model, |old(model.calls)|)
  {
    var at, k := 0, 0;
    while at < prompt
      invariant at == model.position <= prompt
      invariant old(model.calls) <= model.calls && CallsInContext(model, |old(model.calls)|)
      decreases prompt - at
    {
      var m := if prompt - at < MaxChunk then prompt - at else MaxChunk;
      var ok := model.Forward(m, world.runs(k));
      if !ok {
        return Some(Error(Internal));
      }
      if world.cancelPrompt(k) {
        return Some(Done(Cancelled, prompt, 0));
      }
      at, k := at + m, k + 1;
    }
    return None;
  }

  // What the token loop keeps: text as far as it goes, one event per token at most, and no text while reasoning.
  ghost predicate Running(o: Outcome, r: Request, bytes: nat -> seq<Byte>) {
    && Streamed(o, r, bytes) && Numbered(o.events) && !o.disconnected && |o.events| <= |o.tokens| == o.completion
    && (forall i :: 0 <= i < |o.events| ==> o.events[i].Chunk?)
    && (Thinking(o.tokens, r) ==> Visible(o.tokens, r, bytes) == [] && (o.events == [] <==> o.tokens == []))
  }

  // A sampled token outside the reasoning releases what has become valid.
  method Release(o: Outcome, token: nat, r: Request, world: World) returns (q: Outcome)
    requires Running(o, r, world.bytes) && !Thinking(o.tokens, r)
    ensures q.tokens == o.tokens + [token] && q.completion == o.completion + 1
    ensures if q.disconnected then q.events == o.events else Running(q, r, world.bytes)
  {
    var pending := o.pending + world.bytes(token);
    var valid := ValidUpTo(pending);
    var events := o.events;
    if valid > 0 {
      if !world.delivered(|o.events|) {
        return Outcome(o.events, o.tokens + [token], pending[valid..], o.completion + 1, true);
      }
      events := o.events + [Chunk(|o.events|, pending[..valid], false)];
    }
    q := Outcome(events, o.tokens + [token], pending[valid..], o.completion + 1, false);
    ReleaseKeepsStreamed(o, q, token, r, world.bytes);
    if valid > 0 { NumberedGrows(o.events, events[|o.events|]); }
  }

  lemma NumberedGrows(events: seq<Event>, e: Event)
    requires Numbered(events) && (forall i :: 0 <= i < |events| ==> events[i].Chunk?)
    requires e.Chunk? && e.sequence == |events| && !e.reasoning && e.text != []
    ensures Numbered(events + [e]) && forall i :: 0 <= i < |events + [e]| ==> (events + [e])[i].Chunk?
  {}

  lemma ReleaseKeepsStreamed(o: Outcome, q: Outcome, token: nat, r: Request, bytes: nat -> seq<Byte>)
    requires Streamed(o, r, bytes) && !Thinking(o.tokens, r) && q.tokens == o.tokens + [token]
    requires var next := o.pending + bytes(token);
      var valid := ValidUpTo(next);
      q.pending == next[valid..] && q.events == if valid > 0 then o.events + [Chunk(|o.events|, next[..valid], false)]
        else o.events
    ensures Streamed(q, r, bytes) && !Thinking(q.tokens, r)
  {
    var next := o.pending + bytes(token);
    var valid := ValidUpTo(next);
    ReleaseContinues(Visible(o.tokens, r, bytes), Text(o.events), o.pending, bytes(token));
    assert q.tokens[..|o.tokens|] == o.tokens;
    if valid > 0 {
      assert q.events[..|o.events|] == o.events;
    } else {
      assert Text(o.events) + next[..valid] == Text(o.events);
    }
  }

  // A token of the reasoning is hidden; the first one announces it.
  method Hide(o: Outcome, token: nat, r: Request, world: World) returns (q: Outcome)
    requires Running(o, r, world.bytes) && Thinking(o.tokens, r)
    ensures q.tokens == o.tokens + [token] && q.completion == o.completion + 1
    ensures if q.disconnected then q.events == o.events else Running(q, r, world.bytes)
  {
    HiddenTokenShowsNothing(o.tokens, token, r, world.bytes);
    var events := o.events;
    if o.tokens == [] {
      if !world.delivered(|o.events|) {
        return Outcome(o.events, o.tokens + [token], [], o.completion + 1, true);
      }
      events := [Chunk(0, [], true)];
    }
    MarkerHasNoText(events, o.events);
    q := Outcome(events, o.tokens + [token], [], o.completion + 1, false);
    assert ValidUpTo([]) == 0;
  }

  lemma HiddenTokenShowsNothing(tokens: seq<nat>, token: nat, r: Request, bytes: nat -> seq<Byte>)
    requires Thinking(tokens, r)
    ensures Visible(tokens + [token], r, bytes) == Visible(tokens, r, bytes)
  {
    assert (tokens + [token])[..|tokens|] == tokens;
  }

  lemma MarkerHasNoText(events: seq<Event>, prior: seq<Event>)
    requires Text(prior) == [] && (events == prior || events == [Chunk(0, [], true)])
    ensures Text(events) == []
  {
    assert [Chunk(0, [], true)][..0] == [];
  }

  ghost predicate CallsInContext(model: Model, from: nat)
    reads model
  { forall i :: from <= i < |model.calls| ==> InContext(model.calls[i]) }

  // The tokens are the samples, none of them the stop token.
  ghost predicate FromSamples(tokens: seq<nat>, stop: nat, world: World) {
    forall i :: 0 <= i < |tokens| ==> tokens[i] == world.sample(i) != stop
  }

  // Why a finished loop ended, and how many tokens it counts.
  ghost predicate EndsFor(o: Outcome, e: Event, prompt: nat, r: Request, stop: nat, world: World) {
    match e
    case Chunk(_, _, _) => false
    case Error(code) => code == Internal && |o.tokens| < r.maxTokens && !world.runs(prompt + |o.tokens|)
    case Done(finish, p, c) =>
      && p == prompt && c == o.completion
      && match finish
         case Cancelled => c == |o.tokens| && world.cancel(c)
         case EndOfSentence => c == |o.tokens| + 1 && world.sample(|o.tokens|) == stop
         case Length => c == |o.tokens| == r.maxTokens
  }

  // A loop that has ended.
  ghost predicate Ended(o: Outcome, prompt: nat, r: Request, stop: nat, world: World) {
    && o.completion <= r.maxTokens && FromSamples(o.tokens, stop, world) && Numbered(o.events)
    && (o.disconnected ==> Text(o.events) <= Visible(o.tokens, r, world.bytes))
    && (!o.disconnected ==> Streamed(o, r, world.bytes) && o.events != [])
    && (!o.disconnected ==> EndsFor(o, o.events[|o.events| - 1], prompt, r, stop, world))
  }

  lemma FinishedHasEnded(o: Outcome, completion: nat, e: Event, prompt: nat, r: Request, stop: nat, world: World)
    requires Running(o, r, world.bytes) && FromSamples(o.tokens, stop, world) && completion <= r.maxTokens
    requires EndsFor(o.(completion := completion), e, prompt, r, stop, world)
    ensures Ended(Finished(o.(completion := completion), e), prompt, r, stop, world)
  {}

  method TakeToken(o: Outcome, token: nat, r: Request, world: World) returns (q: Outcome)
    requires Running(o, r, world.bytes)
    ensures q.tokens == o.tokens + [token] && q.completion == o.completion + 1
    ensures if q.disconnected then q.events == o.events && Text(q.events) <= Visible(q.tokens, r, world.bytes)
      else Running(q, r, world.bytes)
  {
    if Thinking(o.tokens, r) {
      q := Hide(o, token, r, world);
    } else {
      q := Release(o, token, r, world);
    }
    if q.disconnected {
      TextIsPrefix(o, q, token, r, world.bytes);
    }
  }

  // Between two turns of the loop.
  ghost predicate Between(o: Outcome, r: Request, stop: nat, world: World) {
    Running(o, r, world.bytes) && o.completion < r.maxTokens && FromSamples(o.tokens, stop, world)
  }

  // One turn up to the model call: `ended` with the final outcome, or the token is taken and there is room for more.
  method Turn(o: Outcome, r: Request, prompt: nat, stop: nat, world: World) returns (q: Outcome, ended: bool)
    requires Between(o, r, stop, world)
    ensures if ended then Ended(q, prompt, r, stop, world)
      else Between(q, r, stop, world) && q.completion == o.completion + 1
  {
    var c := o.completion;
    if world.cancel(c) {
      FinishedHasEnded(o, c, Done(Cancelled, prompt, c), prompt, r, stop, world);
      return Finished(o.(completion := c), Done(Cancelled, prompt, c)), true;
    }
    var token := world.sample(c);
    if token == stop {
      FinishedHasEnded(o, c + 1, Done(EndOfSentence, prompt, c + 1), prompt, r, stop, world);
      return Finished(o.(completion := c + 1), Done(EndOfSentence, prompt, c + 1)), true;
    }
    q := TakeToken(o, token, r, world);
    assert FromSamples(q.tokens, stop, world);
    if q.disconnected {
      return q, true;
    }
    ended := q.completion >= r.maxTokens;
    if ended {
      FinishedHasEnded(q, c + 1, Done(Length, prompt, c + 1), prompt, r, stop, world);
      q := Finished(q.(completion := c + 1), Done(Length, prompt, c + 1));
    }
  }

  lemma NothingYet(r: Request, stop: nat, world: World)
    requires r.maxTokens >= 1
    ensures Between(Outcome([], [], [], 0, false), r, stop, world)
  {
    assert ValidUpTo([]) == 0;
  }

  // The model call for one token inside the context.
  method NextLogits(model: Model, runs: bool) returns (ok: bool)
    requires model.position < Context
    modifies model
    ensures old(model.calls) <= model.calls && CallsInContext(model, |old(model.calls)|)
    ensures ok == runs && model.position == old(model.position) + if ok then 1 else 0
  {
    assert InContext(Call(model.position, 1));
    ok := model.Forward(1, runs);
  }

  // One turn with its model call.
  method Step(model: Model, o: Outcome, r: Request, prompt: nat, stop: nat, world: World)
    returns (q: Outcome, ended: bool)
    requires Between(o, r, stop, world) && prompt + r.maxTokens <= Context && model.position == prompt + o.completion
    modifies model
    ensures old(model.calls) <= model.calls && CallsInContext(model, |old(model.calls)|)
    ensures if ended then Ended(q, prompt, r, stop, world) else Between(q, r, stop, world)
    ensures !ended ==> q.completion == o.completion + 1 && model.position == prompt + q.completion
  {
    q, ended := Turn(o, r, prompt, stop, world);
    if !ended {
      var c := q.completion;
      var ok := NextLogits(model, world.runs(prompt + c));
      if !ok {
        FinishedHasEnded(q, c, Error(Internal), prompt, r, stop, world);
        q, ended := Finished(q.(completion := c), Error(Internal)), true;
      }
    }
  }

  // The token loop.
  method Decode(model: Model, r: Request, prompt: nat, stop: nat, world: World) returns (o: Outcome)
    requires 1 <= r.maxTokens && prompt + r.maxTokens <= Context && model.position == prompt
    modifies model
    ensures old(model.calls) <= model.calls && CallsInContext(model, |old(model.calls)|)
    ensures Ended(o, prompt, r, stop, world)
  {
    o := Outcome([], [], [], 0, false);
    NothingYet(r, stop, world);
    var ended := false;
    while !ended
      invariant if ended then Ended(o, prompt, r, stop, world)
        else Between(o, r, stop, world) && model.position == prompt + o.completion
      invariant old(model.calls) <= model.calls && CallsInContext(model, |old(model.calls)|)
      decreases !ended, r.maxTokens - o.completion
    {
      o, ended := Step(model, o, r, prompt, stop, world);
    }
  }

  function Finished(o: Outcome, e: Event): (q: Outcome)
    requires !e.Chunk?
    ensures Text(q.events) == Text(o.events) && (Numbered(o.events) ==> Numbered(q.events))
  {
    assert (o.events + [e])[..|o.events|] == o.events;
    o.(events := o.events + [e])
  }

  lemma TextIsPrefix(o: Outcome, q: Outcome, token: nat, r: Request, bytes: nat -> seq<Byte>)
    requires Streamed(o, r, bytes) && q.events == o.events && q.tokens == o.tokens + [token]
    ensures Text(q.events) <= Visible(q.tokens, r, bytes)
  {
    assert q.tokens[..|o.tokens|] == o.tokens;
  }

  // An answer without any token.
  function Only(e: Event): Outcome { Outcome([e], [], [], 0, false) }

  lemma OnlyStreamsNothing(e: Event, r: Request, bytes: nat -> seq<Byte>)
    requires !e.Chunk?
    ensures Streamed(Only(e), r, bytes) && Numbered(Only(e).events)
  {
    assert ValidUpTo([]) == 0;
    assert [e][..0] == [];
  }

  // A request with its prompt inside the context.
  method Answer(model: Model, r: Request, prompt: nat, world: World) returns (o: Outcome)
    requires 1 <= r.maxTokens && prompt + r.maxTokens <= Context
    modifies model
    ensures old(model.calls) <= model.calls && CallsInContext(model, |old(model.calls)|)
    ensures (exists e: Event :: !e.Chunk? && o == Only(e)) || (r.stop.Some? && Ended(o, prompt, r, r.stop.value, world))
  {
    model.Reset();
    var end := Prefill(model, prompt, world);
    if end.Some? {
      return Only(end.value);
    }
    if r.stop.None? {
      return Only(Error(Internal));
    }
    o := Decode(model, r, prompt, r.stop.value, world);
  }

  /** For every request and every behaviour of the outside world: chunks are numbered from 0 without a gap; unless the
      client is gone, the text sent is the longest valid UTF-8 prefix of the visible bytes and the rest is pending; at
      most `maxTokens` tokens are produced; and the model is only ever called with 1 to 64 tokens inside its context. */
  method Generate(model: Model, r: Request, world: World) returns (o: Outcome)
    modifies model
    ensures old(model.calls) <= model.calls && CallsInContext(model, |old(model.calls)|)
    ensures o.completion <= r.maxTokens && Numbered(o.events)
    ensures if o.disconnected then Text(o.events) <= Visible(o.tokens, r, world.bytes) else Streamed(o, r, world.bytes)
    ensures !o.disconnected ==> o.events != [] && !o.events[|o.events| - 1].Chunk?
    ensures o.tokens != [] ==> r.prompt.Some? && r.stop.Some? && Ended(o, |r.prompt.value|, r, r.stop.value, world)
    ensures r.prompt.Some? && |r.prompt.value| + r.maxTokens > Context ==>
      o.tokens == [] && model.calls == old(model.calls)
  {
    forall e: Event | !e.Chunk? ensures Streamed(Only(e), r, world.bytes) && Numbered(Only(e).events) {
      OnlyStreamsNothing(e, r, world.bytes);
    }
    if !r.valid || r.maxTokens == 0 || r.prompt.None? {
      return Only(Error(InvalidRequest));
    }
    if |r.prompt.value| + r.maxTokens > Context {
      return Only(Error(ContextExceeded));
    }
    o := Answer(model, r, |r.prompt.value|, world);
  }
}
