/**
 Text generation: feed the prompt, then sample, one token a step, until the step limit or an end-of-text
 token. What a run may produce is stated without a cache; the generator decodes with one.
 */
module Generation {
  import opened Bytes
  import opened Kernels
  import opened Reference
  import opened Nucleus
  import opened Xorshift
  import opened Sampling
  import opened Cache
  import opened Decoder
  import Tokens

  // ---- one choice ----------------------------------------------------------------------------

  datatype Settings = Settings(temperature: real, topp: real)

  /** The tokens are drawn from a nucleus rather than from everything. */
  predicate Nuclear(c: Settings) { c.temperature != 0.0 && 0.0 < c.topp < 1.0 }

  ghost predicate FromSorted(f: seq<Pair>, probs: seq<real>, topp: real, coin: real, o: Choice) {
    Arranges(f, Filtered(probs, topp)) && FromNucleus(f, topp, coin, o)
  }

  /** With these logits and this generator state the sampler may make this choice and leave that state. */
  ghost predicate Chooses(lm: Libm, c: Settings, logits: seq<real>, seed: bv64, next: bv64, o: Choice)
    requires logits != []
  {
    if c.temperature == 0.0 then o.Picked? && FirstLargest(logits, o.id) && next == seed
    else
      var probs := Softmax(lm, Tempered(logits, c.temperature));
      && next == NextState(seed)
      && if Nuclear(c) then exists f: seq<Pair> :: FromSorted(f, probs, c.topp, CoinOf(next), o)
         else o.Picked? && FromAll(Nucleus.Pairs(probs), CoinOf(next), o.id)
  }

  lemma {:induction false} KeptFrom(a: seq<Pair>, t: real, x: Pair)
    requires x in Kept(a, t)
    ensures x in a && x.p >= t
  {
    if x !in Kept(a[..|a| - 1], t) {
      assert x == a[|a| - 1];
    } else {
      KeptFrom(a[..|a| - 1], t, x);
    }
  }

  /** A token that survives the filter is one of the vocabulary, with its probability. */
  lemma FilteredFrom(probs: seq<real>, topp: real, f: seq<Pair>, j: nat)
    requires multiset(f) == multiset(Filtered(probs, topp)) && j < |f|
    ensures f[j].id < |probs| && f[j].p == probs[f[j].id] && f[j].p >= Cutoff(|probs|, topp)
  {
    hide Cutoff;
    assert f[j] in multiset(f);
    assert |probs| != 1;
    KeptFrom(Nucleus.Pairs(probs), Cutoff(|probs|, topp), f[j]);
  }

  lemma ChosenFrom(f: seq<Pair>, topp: real, coin: real, o: Choice)
    requires FromNucleus(f, topp, coin, o) && o.Picked?
    ensures f != []
  {
    hide Mass;
  }

  /** Whatever is chosen is a token of the vocabulary. */
  lemma ChoiceInVocab(lm: Libm, c: Settings, logits: seq<real>, seed: bv64, next: bv64, o: Choice)
    requires logits != [] && Chooses(lm, c, logits, seed, next, o) && o.Picked?
    ensures o.id < |logits|
  {
    hide Softmax, NextState, CoinOf, Filtered, Mass, IsNucleus, LandsOn;
    if Nuclear(c) {
      var probs := Softmax(lm, Tempered(logits, c.temperature));
      var f: seq<Pair> :| FromSorted(f, probs, c.topp, CoinOf(next), o);
      ChosenFrom(f, c.topp, CoinOf(next), o);
      var k, j := WhereItLands(f, c.topp, CoinOf(next), o);
      FilteredFrom(probs, c.topp, f, j);
    }
  }

  // ---- what a run may produce ----------------------------------------------------------------

  datatype Job = Job(
    m: Model, int8: bool, tok: Tokens.Tokenizer, prompt: seq<nat>, c: Settings, seed: bv64, maxSteps: nat)

  ghost predicate ValidJob(j: Job) { ValidModel(j.m) && j.prompt != [] && ValidTokens(j.m, j.prompt) && j.seed != 0 }

  /** The tokens fed and chosen, and the generator state after each. */
  datatype History = History(toks: seq<nat>, seeds: seq<bv64>)

  predicate IsStop(token: nat) { token == Tokens.BOS || token == Tokens.EOS }

  /** Token `t` comes from the prompt, or is one the sampler may choose from the logits recomputed for the tokens before it. */
  ghost predicate Follows(j: Job, y: History, t: nat)
    requires ValidJob(j) && ValidTokens(j.m, y.toks) && 0 < t < |y.toks| == |y.seeds|
  {
    if t < |j.prompt| then y.toks[t] == j.prompt[t] && y.seeds[t] == y.seeds[t - 1]
    else Chooses(j.m.lm, j.c, Logits(j.m, j.int8, y.toks, t - 1), y.seeds[t - 1], y.seeds[t], Picked(y.toks[t]))
  }

  /** A run so far: every token follows from those before it, and only the last may be an end-of-text token. */
  ghost predicate Ran(j: Job, y: History) {
    && ValidJob(j) && ValidTokens(j.m, y.toks) && 0 < |y.toks| == |y.seeds|
    && y.toks[0] == j.prompt[0] && y.seeds[0] == j.seed && |y.toks| <= j.maxSteps + 1
    && (forall t | 0 < t < |y.toks| :: Follows(j, y, t))
    && (forall t | 0 < t < |y.toks| - 1 :: !IsStop(y.toks[t]))
  }

  /** The run ended in an end-of-text token; the first token of the prompt does not count. */
  predicate Stopped(y: History) { |y.toks| > 1 && IsStop(y.toks[|y.toks| - 1]) }

  /** There is nothing left to do. */
  ghost predicate Complete(j: Job, y: History) { Ran(j, y) && (Stopped(y) || |y.toks| == j.maxSteps + 1) }

  /** What a step puts out: nothing for the prompt, then the bytes of the token. */
  function PieceAt(j: Job, toks: seq<nat>, t: nat): seq<Byte>
    requires 0 < t < |toks|
  {
    if t < |j.prompt| then [] else Tokens.Decode(j.tok, toks[t - 1], toks[t])
  }

  /** The text of a run. */
  function Spoken(j: Job, toks: seq<nat>): seq<Byte> {
    var n := |toks| - 1;
    if n <= 0 then []
    else Spoken(j, toks[..n]) + if IsStop(toks[n]) then [] else PieceAt(j, toks, n)
  }

  /** One more token. */
  function Longer(y: History, token: nat, seed: bv64): History { History(y.toks + [token], y.seeds + [seed]) }

  /** The logits a step sees do not change when more tokens follow. */
  lemma SameLogits(j: Job, y: History, token: nat, t: nat)
    requires ValidJob(j) && ValidTokens(j.m, y.toks) && token < j.m.c.vocab && t < |y.toks|
    ensures ValidTokens(j.m, y.toks + [token])
    ensures Logits(j.m, j.int8, y.toks + [token], t) == Logits(j.m, j.int8, y.toks, t)
  {
    hide Logits, ValidModel;
    var longer := y.toks + [token];
    assert longer[..t + 1] == y.toks[..t + 1];
    LogitsAreCausal(j.m, j.int8, y.toks, longer, t);
  }

  /** What a token must satisfy to continue a run. */
  ghost predicate MayFollow(j: Job, y: History, token: nat, seed: bv64)
    requires ValidJob(j) && ValidTokens(j.m, y.toks) && 0 < |y.toks| == |y.seeds|
  {
    var t := |y.toks|;
    if t < |j.prompt| then token == j.prompt[t] && seed == y.seeds[t - 1]
    else Chooses(j.m.lm, j.c, Logits(j.m, j.int8, y.toks, t - 1), y.seeds[t - 1], seed, Picked(token))
  }

  lemma RanLonger(j: Job, y: History, token: nat, seed: bv64)
    requires Ran(j, y) && !Stopped(y) && |y.toks| <= j.maxSteps && token < j.m.c.vocab
    requires MayFollow(j, y, token, seed)
    ensures Ran(j, Longer(y, token, seed))
  {
    hide Logits, ValidModel, Chooses;
    var z := Longer(y, token, seed);
    SameLogits(j, y, token, 0);
    forall t | 0 < t < |z.toks| ensures Follows(j, z, t) {
      SameLogits(j, y, token, t - 1);
      if t < |y.toks| { assert Follows(j, y, t); }
    }
  }

  // ---- panics --------------------------------------------------------------------------------

  /** The probabilities the next choice draws from. */
  ghost function NextProbs(j: Job, y: History): seq<real>
    requires ValidJob(j) && ValidTokens(j.m, y.toks) && y.toks != [] && j.c.temperature != 0.0
  {
    Softmax(j.m.lm, Tempered(Logits(j.m, j.int8, y.toks, |y.toks| - 1), j.c.temperature))
  }

  /** The next token is to be drawn from a nucleus, and no token passes the filter. */
  ghost predicate Panics(j: Job, y: History)
    requires ValidJob(j) && ValidTokens(j.m, y.toks) && y.toks != []
  {
    |j.prompt| <= |y.toks| && Nuclear(j.c) && Filtered(NextProbs(j, y), j.c.topp) == []
  }

  /** A run that cannot go on. */
  ghost predicate Broken(j: Job, y: History) { Ran(j, y) && !Stopped(y) && Panics(j, y) }

  /** The sampler panics exactly when no token passes the filter. */
  lemma PanicsExactly(lm: Libm, c: Settings, logits: seq<real>, seed: bv64)
    requires logits != []
    ensures Chooses(lm, c, logits, seed, NextState(seed), Panicked) <==>
            Nuclear(c) && Filtered(Softmax(lm, Tempered(logits, c.temperature)), c.topp) == []
  {
    hide Softmax, NextState, CoinOf, Filtered, Descending;
    if Nuclear(c) {
      var probs := Softmax(lm, Tempered(logits, c.temperature));
      if Filtered(probs, c.topp) == [] {
        assert Arranges([], Filtered(probs, c.topp)) by { EmptyArranges(); }
        assert FromSorted([], probs, c.topp, CoinOf(NextState(seed)), Panicked);
      }
      forall f: seq<Pair> | FromSorted(f, probs, c.topp, CoinOf(NextState(seed)), Panicked)
        ensures Filtered(probs, c.topp) == []
      {
        SameSize(f, Filtered(probs, c.topp));
      }
    }
  }

  lemma EmptyArranges()
    ensures Arranges([], [])
  {
  }

  // ---- the generator -------------------------------------------------------------------------

  /** Sample from logits, which are used up. */
  method Draw(sam: Sampler, logits: array<real>) returns (o: Choice)
    requires sam.Valid() && logits.Length > 0
    modifies sam, logits
    ensures sam.Valid()
    ensures Chooses(sam.lm, Settings(sam.temperature, sam.topp), old(logits[..]), old(sam.rng), sam.rng, o)
  {
    hide Softmax, NextState, CoinOf, Filtered, FromNucleus, FromAll, Arranges, FirstLargest;
    o := sam.Sample(logits);
    if sam.temperature != 0.0 && 0.0 < sam.topp < 1.0 {
      assert FromSorted(sam.probindex, logits[..], sam.topp, CoinOf(sam.rng), o);
    }
  }

  method Copied(a: array<real>) returns (b: array<real>)
    ensures fresh(b) && b[..] == a[..]
  {
    b := new real[a.Length](i requires 0 <= i < a.Length reads a => a[i]);
  }

  lemma {:induction false} MergedKeepsSome(v: Tokens.Tokenizer, toks: seq<nat>)
    requires Tokens.ValidTokenizer(v) && Tokens.Known(v, toks) && toks != []
    ensures Tokens.Merged(v, toks) != []
    decreases |toks|
  {
    hide Tokens.Best;
    match Tokens.Best(v, toks, Tokens.Pairs(toks))
    case None =>
    case Some(m) => MergedKeepsSome(v, Tokens.Apply(v, toks, m));
  }

  /** An encoded prompt is never empty, and all its tokens are in the vocabulary. */
  lemma EncodedIsKnown(v: Tokens.Tokenizer, text: string)
    requires Tokens.ValidTokenizer(v)
    ensures Tokens.Encoded(v, text, true, false) != [] && Tokens.Known(v, Tokens.Encoded(v, text, true, false))
  {
    hide Tokens.Merged, Tokens.TextTokens, Tokens.Find;
    Tokens.StartKnown(v, text, true);
    MergedKeepsSome(v, Tokens.Start(v, text, true));
  }

  lemma RanStart(j: Job)
    requires ValidJob(j)
    ensures Ran(j, History([j.prompt[0]], [j.seed]))
  {
    hide ValidModel;
  }

  lemma RanParts(j: Job, y: History)
    requires Ran(j, y)
    ensures ValidJob(j) && ValidTokens(j.m, y.toks) && 0 < |y.toks| == |y.seeds| <= j.maxSteps + 1
    ensures |y.toks| == j.maxSteps + 1 ==> Complete(j, y)
  {
    hide Follows;
  }

  /** What a step answers; a sampler that panics takes the generator down with it. */
  datatype Answer = Piece(text: seq<Byte>) | Finished | Crashed

  class Generator {
    const j: Job
    const state: RunState
    const sampler: Sampler
    var pos: nat
    var token: nat
    var done: bool
    ghost var past: History

    /** The generator decodes its job's model, and samples as its job says. */
    ghost predicate Fixed()
      reads sampler`rng
    {
      && ValidJob(j) && state.Valid() && state.c == j.m.c && state.int8 == j.int8 && j.maxSteps <= state.ctx
      && sampler.Valid() && sampler.lm == j.m.lm && Settings(sampler.temperature, sampler.topp) == j.c
    }

    /** The position, the token and the sampler are where the run so far ended. */
    ghost predicate Current()
      reads this, sampler`rng
    {
      && Ran(j, past) && |past.toks| == pos + 1 == |past.seeds| && past.seeds[pos] == sampler.rng
      && (Stopped(past) ==> done) && (done ==> Complete(j, past)) && (!done ==> token == past.toks[pos])
    }

    /** The caches hold `n` positions of the run so far. */
    ghost predicate Holds(n: nat)
      requires state.Valid()
      reads this`past, state.keys.exact, state.keys.q, state.keys.s, state.vals.exact, state.vals.q, state.vals.s
    {
      Cached(j.m, j.int8, past.toks, state.ctx, state.keys.Rows(), state.vals.Rows(), n)
    }

    ghost predicate Valid()
      reads this, sampler`rng
      reads state.keys.exact, state.keys.q, state.keys.s, state.vals.exact, state.vals.q, state.vals.s
    {
      Fixed() && Current() && Holds(pos)
    }

    /** Encode the prompt and start before its first token. */
    constructor (m: Model, ctx: nat, int8: bool, tok: Tokens.Tokenizer, text: string, maxTokens: nat, c: Settings, seed: bv64)
      requires ValidModel(m) && Tokens.ValidTokenizer(tok) && |tok.vocab| == m.c.vocab
      ensures Valid() && !done && pos == 0 && fresh(state.Reals()) && fresh(state.Ints()) && fresh(sampler)
      ensures j == Job(m, int8, tok, Tokens.Encoded(tok, text, true, false), c, if seed == 0 then 1 else seed,
                       if maxTokens == 0 then ctx else if maxTokens < ctx then maxTokens else ctx)
    {
      hide ValidModel, ValidConfig, RunState.Valid, Cached, RowCache.Rows, Tokens.Encoded, Ran;
      assert ValidConfig(m.c) by { ConfigOf(m); }
      var prompt := Tokens.EncodeText(tok, text, true, false);
      EncodedIsKnown(tok, text);
      var s := new RunState(m.c, ctx, int8);
      var sam := new Sampler(m.lm, c.temperature, c.topp, seed);
      var steps := if maxTokens == 0 then ctx else if maxTokens < ctx then maxTokens else ctx;
      j := Job(m, int8, tok, prompt, c, if seed == 0 then 1 else seed, steps);
      state, sampler := s, sam;
      pos, token, done := 0, prompt[0], false;
      past := History([prompt[0]], [if seed == 0 then 1 else seed]);
      new;
      RanStart(j);
      CachesValid(s);
      NothingCached(m, int8, past.toks, ctx, s.keys.Rows(), s.vals.Rows());
    }

    /** The token after the current one: the prompt's, or the sampler's. */
    method Choose() returns (o: Choice)
      requires Fixed() && Current() && !done && pos < j.maxSteps
      requires ValidTokens(j.m, past.toks) && state.logits[..] == Logits(j.m, j.int8, past.toks, pos)
      modifies sampler
      ensures Fixed()
      ensures o.Picked? ==> o.id < j.m.c.vocab && MayFollow(j, past, o.id, sampler.rng)
      ensures o.Panicked? ==> Panics(j, past)
    {
      hide ValidModel, RunState.Valid, Logits, Softmax, Chooses, Ran, NextState, Filtered, Tempered;
      if pos + 1 < |j.prompt| { return Picked(j.prompt[pos + 1]); }
      ghost var logits := state.logits[..];
      var copy := Copied(state.logits);
      o := Draw(sampler, copy);
      if o.Picked? {
        ChoiceInVocab(j.m.lm, j.c, logits, past.seeds[pos], sampler.rng, o);
      } else {
        NextSeed(j.m.lm, j.c, logits, past.seeds[pos], sampler.rng);
        PanicsExactly(j.m.lm, j.c, logits, past.seeds[pos]);
      }
    }

    /** Move to the next token. */
    method Accept(next: nat) returns (r: Answer)
      requires Fixed() && Ran(j, past) && |past.toks| == pos + 1 == |past.seeds| && !Stopped(past) && !done
      requires pos < j.maxSteps && token == past.toks[pos]
      requires next < j.m.c.vocab && ValidTokens(j.m, past.toks) && MayFollow(j, past, next, sampler.rng) && Holds(pos + 1)
      modifies this
      ensures Valid() && pos == old(pos) + 1 && past.toks[..pos] == old(past.toks) && done == IsStop(past.toks[pos])
      ensures r == if done then Finished else Piece(PieceAt(j, past.toks, pos))
    {
      hide ValidModel, RunState.Valid, Cached, RowCache.Rows, Ran, MayFollow, Tokens.Decode;
      RanLonger(j, past, next, sampler.rng);
      ghost var was := past.toks;
      past := Longer(past, next, sampler.rng);
      RanParts(j, past);
      assert past.toks[..pos + 1] == was[..pos + 1] == was;
      CachesValid(state);
      CachedForPrefix(j.m, j.int8, was, past.toks, state.ctx, state.keys.Rows(), state.vals.Rows(), pos + 1);
      pos := pos + 1;
      if IsStop(next) {
        done := true;
        return Finished;
      }
      var piece := Tokens.Decode(j.tok, token, next);
      token := next;
      r := Piece(if pos < |j.prompt| then [] else piece);
    }

    /** Decode one position and choose the token after it. */
    method Step() returns (r: Answer)
      requires Valid()
      modifies this, sampler, state.Reals(), state.Ints()
      ensures r == Crashed ==>
                past == old(past) && !old(done) && old(pos) < j.maxSteps && Broken(j, past)
      ensures r != Crashed ==> Valid()
      ensures old(done) || old(pos) >= j.maxSteps ==> r == Finished && done && past == old(past)
      ensures r != Crashed && !old(done) && old(pos) < j.maxSteps ==>
                && pos == old(pos) + 1 && past.toks[..pos] == old(past.toks) && done == IsStop(past.toks[pos])
                && r == if done then Finished else Piece(PieceAt(j, past.toks, pos))
    {
      hide ValidModel, RunState.Valid, Cached, RowCache.Rows, Logits, OnlyPosition, Ran, MayFollow, PieceAt, Panics;
      RanParts(j, past);
      if done || pos >= j.maxSteps {
        done := true;
        return Finished;
      }
      state.Forward(j.m, token, pos, past.toks);
      var o := Choose();
      match o
      case Panicked => r := Crashed;
      case Picked(next) => r := Accept(next);
    }
  }

  lemma CachesValid(s: RunState)
    requires s.Valid()
    ensures s.keys.Valid() && s.vals.Valid() && |s.keys.Rows()| == |s.vals.Rows()| == s.c.nLayers * s.ctx
  {
    hide HeadsOf, RunState.Apart, RunState.Clear, RunState.Sized;
  }

  lemma ConfigOf(m: Model)
    requires ValidModel(m)
    ensures ValidConfig(m.c)
  {
  }

  lemma NextSeed(lm: Libm, c: Settings, logits: seq<real>, seed: bv64, next: bv64)
    requires logits != [] && Chooses(lm, c, logits, seed, next, Panicked)
    ensures next == NextState(seed)
  {
    hide Softmax, NextState, Filtered;
  }

  /** Step until there is nothing left to do, and put the pieces together. */
  method Generate(g: Generator) returns (out: seq<Byte>, ok: bool)
    requires g.Valid() && !g.done && g.pos == 0
    modifies g, g.sampler, g.state.Reals(), g.state.Ints()
    ensures out == Spoken(g.j, g.past.toks)
    ensures ok ==> g.Valid() && Complete(g.j, g.past)
    ensures !ok ==> Broken(g.j, g.past)
  {
    hide Generator.Fixed, Generator.Holds, PieceAt, Ran, Broken, RunState.Valid, Spoken, IsStop, Stopped, Complete;
    out := [];
    RanParts(g.j, g.past);
    ghost var was := g.past.toks;
    var a := g.Step();
    SpokenStep(g.j, was, g.past.toks);
    while a.Piece?
      invariant a != Crashed ==> g.Valid() && g.done == a.Finished?
      invariant a == Crashed ==> Broken(g.j, g.past)
      invariant Spoken(g.j, g.past.toks) == out + if a.Piece? then a.text else []
      decreases a.Piece?, g.j.maxSteps + 1 - g.pos
    {
      RanParts(g.j, g.past);
      out := out + a.text;
      was := g.past.toks;
      a := g.Step();
      SpokenStep(g.j, was, g.past.toks);
    }
    ok := a.Finished?;
  }

  /** What one more token adds to the text. */
  lemma SpokenStep(j: Job, was: seq<nat>, now: seq<nat>)
    requires was != []
    ensures |now| == |was| + 1 && now[..|was|] == was ==>
              Spoken(j, now) == Spoken(j, was) + if IsStop(now[|was|]) then [] else PieceAt(j, now, |was|)
    ensures |was| == 1 ==> Spoken(j, was) == []
  {
    hide PieceAt, IsStop;
  }

  // ---- one seed, one text --------------------------------------------------------------------

  /** No two tokens are equally probable. */
  ghost predicate NoTies(probs: seq<real>) { forall a, b | 0 <= a < b < |probs| :: probs[a] != probs[b] }

  lemma {:induction false} MassGrows(a: seq<Pair>, i: nat, k: nat)
    requires i <= k <= |a| && forall n | 0 <= n < |a| :: a[n].p >= 0.0
    ensures Mass(a[..i]) <= Mass(a[..k])
  {
    if i < k {
      MassGrows(a, i, k - 1);
      MassNext(a, k - 1);
    }
  }

  lemma FromAllIsUnique(a: seq<Pair>, coin: real, i: nat, k: nat)
    requires FromAll(a, coin, i) && FromAll(a, coin, k)
    ensures i == k
  {
    hide Mass;
  }

  lemma FirstLargestIsUnique(v: seq<real>, i: nat, k: nat)
    requires FirstLargest(v, i) && FirstLargest(v, k)
    ensures i == k
  {
    assert v[i] <= v[k] && v[k] <= v[i];
  }

  /** Without ties there is one way to sort the tokens that pass the filter. */
  lemma OneOrder(probs: seq<real>, topp: real, f: seq<Pair>, g: seq<Pair>)
    requires NoTies(probs) && Arranges(f, Filtered(probs, topp)) && Arranges(g, Filtered(probs, topp))
    ensures f == g
  {
    hide Filtered, Cutoff;
    SameSize(f, Filtered(probs, topp));
    SameSize(g, Filtered(probs, topp));
    forall i | 0 <= i < |f| ensures f[i] == g[i] {
      SameProbabilities(f, g, i);
      FilteredFrom(probs, topp, f, i);
      FilteredFrom(probs, topp, g, i);
    }
  }

  lemma OneInterval(f: seq<Pair>, x: real, i: nat, j: nat)
    requires i < |f| && j < |f| && forall n | 0 <= n < |f| :: f[n].p >= 0.0
    requires Mass(f[..i]) <= x < Mass(f[..i + 1]) && Mass(f[..j]) <= x < Mass(f[..j + 1])
    ensures i == j
  {
    hide Mass;
    if i < j { MassGrows(f, i + 1, j); }
    if j < i { MassGrows(f, j + 1, i); }
  }

  lemma OneNucleus(f: seq<Pair>, topp: real, coin: real, k: nat, i: nat, l: nat, j: nat)
    requires Lands(f, topp, coin, k, i) && Lands(f, topp, coin, l, j) && forall n | 0 <= n < |f| :: f[n].p >= 0.0
    ensures k == l && i == j
  {
    hide Mass;
    assert k == l;
    OneInterval(f, coin * Mass(f[..k]), i, j);
  }

  lemma OneFromNucleus(probs: seq<real>, topp: real, coin: real, f: seq<Pair>, o: Choice, p: Choice)
    requires topp < 1.0 && multiset(f) == multiset(Filtered(probs, topp))
    requires FromNucleus(f, topp, coin, o) && FromNucleus(f, topp, coin, p)
    ensures o == p
  {
    hide Mass, Filtered, Cutoff, IsNucleus, LandsOn;
    if f != [] {
      SameSize(f, Filtered(probs, topp));
      MoreThanOne(probs, topp);
      CutoffPositive(|probs|, topp);
      forall n | 0 <= n < |f| ensures f[n].p >= 0.0 { FilteredFrom(probs, topp, f, n); }
      var k, i := WhereItLands(f, topp, coin, o);
      var l, j := WhereItLands(f, topp, coin, p);
      OneNucleus(f, topp, coin, k, i, l, j);
    } else {
      NoneLands(topp, coin, o);
      NoneLands(topp, coin, p);
    }
  }

  lemma NoneLands(topp: real, coin: real, o: Choice)
    requires FromNucleus([], topp, coin, o)
    ensures o == Panicked
  {
    if o.Picked? { ChosenFrom([], topp, coin, o); }
  }

  /** The sampler's choice is determined, up to the order of equally probable tokens. */
  lemma ChoiceIsUnique(lm: Libm, c: Settings, logits: seq<real>, seed: bv64, n: bv64, o: Choice, n': bv64, o': Choice)
    requires logits != [] && Chooses(lm, c, logits, seed, n, o) && Chooses(lm, c, logits, seed, n', o')
    requires Nuclear(c) ==> NoTies(Softmax(lm, Tempered(logits, c.temperature)))
    ensures n == n' && o == o'
  {
    hide Softmax, NextState, CoinOf, Filtered, FromNucleus, FromAll, Arranges, NoTies, FirstLargest;
    if c.temperature != 0.0 {
      var probs := Softmax(lm, Tempered(logits, c.temperature));
      if Nuclear(c) {
        var f: seq<Pair> :| FromSorted(f, probs, c.topp, CoinOf(n), o);
        var g: seq<Pair> :| FromSorted(g, probs, c.topp, CoinOf(n), o');
        OneOrder(probs, c.topp, f, g);
        assert multiset(f) == multiset(Filtered(probs, c.topp)) by { ArrangesSame(f, Filtered(probs, c.topp)); }
        OneFromNucleus(probs, c.topp, CoinOf(n), f, o, o');
      } else {
        FromAllIsUnique(Nucleus.Pairs(probs), CoinOf(n), o.id, o'.id);
      }
    } else {
      FirstLargestIsUnique(logits, o.id, o'.id);
    }
  }

  lemma ArrangesSame(f: seq<Pair>, a: seq<Pair>)
    requires Arranges(f, a)
    ensures multiset(f) == multiset(a)
  {
  }

  /** Where the run drew from a nucleus, no two tokens were equally probable. */
  ghost predicate Untied(j: Job, y: History)
    requires ValidJob(j) && ValidTokens(j.m, y.toks)
  {
    Nuclear(j.c) ==> forall t: nat | |j.prompt| <= t < |y.toks| :: UntiedAt(j, y, t)
  }

  ghost predicate UntiedAt(j: Job, y: History, t: nat)
    requires ValidJob(j) && ValidTokens(j.m, y.toks) && 0 < t < |y.toks| && j.c.temperature != 0.0
  {
    NoTies(Softmax(j.m.lm, Tempered(Logits(j.m, j.int8, y.toks, t - 1), j.c.temperature)))
  }

  lemma {:induction false} SamePast(j: Job, y: History, z: History, n: nat)
    requires Ran(j, y) && Ran(j, z) && Untied(j, y) && n <= |y.toks| && n <= |z.toks|
    ensures y.toks[..n] == z.toks[..n] && y.seeds[..n] == z.seeds[..n]
  {
    hide Follows, ValidModel, Untied;
    if n == 1 {
      assert y.toks[..1] == [y.toks[0]] && z.toks[..1] == [z.toks[0]];
      assert y.seeds[..1] == [y.seeds[0]] && z.seeds[..1] == [z.seeds[0]];
    } else if n > 1 {
      var t := n - 1;
      SamePast(j, y, z, t);
      assert y.seeds[t - 1] == y.seeds[..t][t - 1] == z.seeds[t - 1];
      SameNext(j, y, z, t);
      assert y.toks[..n] == y.toks[..t] + [y.toks[t]] && z.toks[..n] == z.toks[..t] + [z.toks[t]];
      assert y.seeds[..n] == y.seeds[..t] + [y.seeds[t]] && z.seeds[..n] == z.seeds[..t] + [z.seeds[t]];
    }
  }

  lemma SameNext(j: Job, y: History, z: History, t: nat)
    requires Ran(j, y) && Ran(j, z) && Untied(j, y) && 0 < t < |y.toks| && t < |z.toks|
    requires y.toks[..t] == z.toks[..t] && y.seeds[t - 1] == z.seeds[t - 1]
    ensures y.toks[t] == z.toks[t] && y.seeds[t] == z.seeds[t]
  {
    hide Logits, ValidModel, Chooses, Softmax, NoTies;
    assert Follows(j, y, t) && Follows(j, z, t);
    LogitsAreCausal(j.m, j.int8, y.toks, z.toks, t - 1);
    if t >= |j.prompt| {
      assert Nuclear(j.c) ==> UntiedAt(j, y, t);
      ChoiceIsUnique(j.m.lm, j.c, Logits(j.m, j.int8, y.toks, t - 1), y.seeds[t - 1],
                     y.seeds[t], Picked(y.toks[t]), z.seeds[t], Picked(z.toks[t]));
    }
  }

  /** The same model, prompt, settings and seed give the same tokens, and so the same text. */
  lemma SeedFixesText(j: Job, y: History, z: History)
    requires Complete(j, y) && Complete(j, z) && Untied(j, y)
    ensures y == z && Spoken(j, y.toks) == Spoken(j, z.toks)
  {
    hide Follows, ValidModel, Untied;
    var n := if |y.toks| <= |z.toks| then |y.toks| else |z.toks|;
    SamePast(j, y, z, n);
    assert y.toks[n - 1] == y.toks[..n][n - 1] == z.toks[n - 1];
    assert y.toks[..|y.toks|] == y.toks && z.toks[..|z.toks|] == z.toks;
    assert y.seeds[..|y.seeds|] == y.seeds && z.seeds[..|z.seeds|] == z.seeds;
  }

  /** With at least two tokens and `topp` at least 1/n, a generator never panics. */
  lemma EnoughNeverPanics(j: Job, y: History)
    requires Ran(j, y) && j.m.c.vocab >= 2 && j.m.c.vocab as real * j.c.topp >= 1.0
    requires forall x :: j.m.lm.exp(x) > 0.0
    ensures !Panics(j, y)
  {
    hide Filtered, Logits, ValidModel, Follows;
    if Nuclear(j.c) {
      var v := Tempered(Logits(j.m, j.int8, y.toks, |y.toks| - 1), j.c.temperature);
      SoftmaxIsDistribution(j.m.lm, v);
      KeptMass(Softmax(j.m.lm, v), j.c.topp);
    }
  }

  // ---- what the settings mean ----------------------------------------------------------------

  /** At temperature zero a token with a largest logit is chosen, the first one of them, and no coin is tossed. */
  lemma ZeroIsGreedy(lm: Libm, c: Settings, logits: seq<real>, seed: bv64, next: bv64, o: Choice, i: nat)
    requires logits != [] && c.temperature == 0.0 && Chooses(lm, c, logits, seed, next, o) && i < |logits|
    ensures o.Picked? && o.id < |logits| && next == seed
    ensures logits[i] <= logits[o.id] && (i < o.id ==> logits[i] < logits[o.id])
  {
  }

  /** Unless `topp` is strictly between 0 and 1, the whole vocabulary is drawn from, and the coin lies in the token's share. */
  lemma WholeVocabulary(lm: Libm, c: Settings, logits: seq<real>, seed: bv64, next: bv64, o: Choice)
    requires logits != [] && c.temperature != 0.0 && (c.topp <= 0.0 || c.topp >= 1.0)
    requires Chooses(lm, c, logits, seed, next, o) && forall x :: lm.exp(x) > 0.0
    ensures next == NextState(seed) && o.Picked? && o.id < |logits|
    ensures var probs := Softmax(lm, Tempered(logits, c.temperature));
            SumOf(probs[..o.id]) <= CoinOf(next) < SumOf(probs[..o.id + 1])
  {
    hide Softmax, NextState, CoinOf, Mass;
    var probs := Softmax(lm, Tempered(logits, c.temperature));
    SoftmaxIsDistribution(lm, Tempered(logits, c.temperature));
    CoinInRange(next);
    AllInterval(probs, CoinOf(next), o.id);
    MassOfPairs(probs, o.id);
    MassOfPairs(probs, o.id + 1);
  }

  /** The text of a run is the piecewise decoding of its tokens from the last one of the prompt on. */
  lemma {:induction false} SpokenIsDecoded(j: Job, toks: seq<nat>)
    requires j.prompt != [] && forall t | 0 < t < |toks| :: toks[t] != 1 && toks[t] != 2
    ensures Spoken(j, toks) == if |toks| < |j.prompt| then [] else Tokens.DecodeRun(j.tok, toks[|j.prompt| - 1..])
    decreases |toks|
  {
    hide Tokens.Decode;
    var n, p := |toks| - 1, |j.prompt| - 1;
    if n > 0 {
      SpokenIsDecoded(j, toks[..n]);
      if n > p {
        var tail := toks[p..];
        assert tail[..|tail| - 1] == toks[..n][p..] && tail[|tail| - 2] == toks[n - 1] && tail[|tail| - 1] == toks[n];
      }
    }
  }

  /** A run ends at the first token after the prompt's first that is 1 or 2, which adds nothing to the text. */
  lemma StopsAre(j: Job, toks: seq<nat>, seeds: seq<bv64>)
    requires |toks| > 1
    ensures Stopped(History(toks, seeds)) <==> toks[|toks| - 1] in {1, 2}
    ensures toks[|toks| - 1] in {1, 2} ==> Spoken(j, toks) == Spoken(j, toks[..|toks| - 1])
  {
    hide PieceAt;
  }
}
