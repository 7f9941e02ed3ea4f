/**
 Batched, paced and retried embedding, and the plain map it stands for.

 The provider is a function from the number of the call and its texts to an answer: what an outside
 service does over time, with no assumption on it except where a lemma names one.
 */
module Embedding {
  import opened Wrappers

  type Vector = seq<real>
  datatype Usage = Usage(promptTokens: nat, totalTokens: nat)
  datatype Answer = Vectors(vectors: seq<Vector>, usage: Usage) | Transient | Permanent
  type Provider = (nat, seq<string>) -> Answer

  /** An exhausted or hopeless provider; a batch size that `range` refuses. */
  datatype EmbedError = UpstreamFailed | ZeroStep

  const MAX_TRIES: nat := 3

  /** What the gateway did: provider calls, sleeps between them in seconds, bucket acquisitions and
      usage records. */
  datatype Trace = Trace(calls: nat, sleeps: seq<nat>, acquired: nat, usage: seq<Usage>)

  datatype Outcome = Outcome(trace: Trace, result: Result<seq<Vector>, EmbedError>)

  // ---------------------------------------------------------------- one batch

  /** How many calls from number `at` on fail transiently, counting at most `bound`. */
  function Failing(p: Provider, texts: seq<string>, at: nat, bound: nat): nat
    decreases bound
  {
    if bound == 0 || p(at, texts) != Transient then 0 else 1 + Failing(p, texts, at + 1, bound - 1)
  }

  /** The answer the retries settle for. */
  function Settled(p: Provider, texts: seq<string>, at: nat): Option<Answer> {
    var k := Failing(p, texts, at, MAX_TRIES);
    if k < MAX_TRIES && p(at + k, texts).Vectors? then Some(p(at + k, texts)) else None
  }

  /** One call more than failed transiently, three at most, with waits 2 and 4 between them. */
  function Tried(p: Provider, texts: seq<string>, t: Trace): Trace {
    var k := Failing(p, texts, t.calls, MAX_TRIES);
    t.(calls := t.calls + Min(k + 1, MAX_TRIES), sleeps := t.sleeps + [2, 4][..Min(k, 2)])
  }

  lemma {:induction false} FailingIs(p: Provider, texts: seq<string>, at: nat, bound: nat)
    ensures var k := Failing(p, texts, at, bound);
            && k <= bound && (forall j: nat | at <= j < at + k :: p(j, texts) == Transient)
            && (k < bound ==> p(at + k, texts) != Transient)
    decreases bound
  {
    if bound > 0 && p(at, texts) == Transient { FailingIs(p, texts, at + 1, bound - 1); }
  }

  lemma {:induction false} FailingFrom(p: Provider, texts: seq<string>, at: nat, bound: nat, k: nat)
    requires k <= bound && forall j: nat | at <= j < at + k :: p(j, texts) == Transient
    ensures Failing(p, texts, at, bound) == k + Failing(p, texts, at + k, bound - k)
    decreases k
  {
    if k > 0 { FailingFrom(p, texts, at + 1, bound, 0); FailingFrom(p, texts, at + 1, bound - 1, k - 1); }
  }

  /** A good answer on try `k`, counted from zero, and only transient failures before it. */
  ghost predicate AnsweredOn(p: Provider, texts: seq<string>, at: nat, k: nat) {
    p(at + k, texts).Vectors? && forall j: nat | at <= j < at + k :: p(j, texts) == Transient
  }

  /** A batch succeeds exactly if a good answer comes within three calls and only transient
      failures before it. */
  lemma SettlesIff(p: Provider, texts: seq<string>, at: nat)
    ensures Settled(p, texts, at).Some? <==>
            exists k: nat | k < MAX_TRIES :: AnsweredOn(p, texts, at, k)
  {
    FailingIs(p, texts, at, MAX_TRIES);
    var n := Failing(p, texts, at, MAX_TRIES);
    assert n < MAX_TRIES && p(at + n, texts).Vectors? ==> AnsweredOn(p, texts, at, n);
    forall k: nat | k < MAX_TRIES && AnsweredOn(p, texts, at, k)
      ensures Settled(p, texts, at).Some?
    {
      FailingFrom(p, texts, at, MAX_TRIES, k);
    }
  }

  /** Two transient failures and then an answer: three calls, with sleeps of 2 and 4 seconds between them. */
  lemma ThirdCallAnswers(p: Provider, texts: seq<string>, t: Trace)
    requires p(t.calls, texts) == Transient && p(t.calls + 1, texts) == Transient && p(t.calls + 2, texts).Vectors?
    ensures Settled(p, texts, t.calls) == Some(p(t.calls + 2, texts))
    ensures Tried(p, texts, t) == t.(calls := t.calls + 3, sleeps := t.sleeps + [2, 4])
  {
    assert Failing(p, texts, t.calls, 3) == 2;
  }

  /** Three transient failures end it, after the same sleeps. */
  lemma ThirdFailureEnds(p: Provider, texts: seq<string>, t: Trace)
    requires p(t.calls, texts) == Transient && p(t.calls + 1, texts) == Transient && p(t.calls + 2, texts) == Transient
    ensures Settled(p, texts, t.calls) == None
    ensures Tried(p, texts, t) == t.(calls := t.calls + 3, sleeps := t.sleeps + [2, 4])
  {
    assert Failing(p, texts, t.calls, 3) == 3;
  }

  /** Any other failure ends it at once. */
  lemma PermanentFailureEnds(p: Provider, texts: seq<string>, t: Trace)
    requires p(t.calls, texts) == Permanent
    ensures Settled(p, texts, t.calls) == None && Tried(p, texts, t) == t.(calls := t.calls + 1)
  {
    assert t.sleeps + [] == t.sleeps;
  }

  /** A batch takes one acquisition, its tries and, once answered, one usage record. */
  function AfterBatch(p: Provider, head: seq<string>, t: Trace): Trace {
    var tried := Tried(p, head, t.(acquired := t.acquired + 1));
    match Settled(p, head, t.calls)
    case None => tried
    case Some(a) => tried.(usage := tried.usage + [a.usage])
  }

  /** What a batch returns is one answer of the provider to these texts, and its usage is what is recorded. */
  lemma AnswerIsRecorded(p: Provider, head: seq<string>, t: Trace) returns (at: nat)
    ensures Answered(p, head, t).vectors.Some? ==>
              && t.calls <= at < t.calls + 3 && p(at, head).Vectors?
              && Answered(p, head, t).vectors == Some(p(at, head).vectors)
              && AfterBatch(p, head, t).usage == t.usage + [p(at, head).usage]
              && AfterBatch(p, head, t).calls == at + 1
    ensures Answered(p, head, t).vectors.None? ==> AfterBatch(p, head, t).usage == t.usage
  {
    FailingIs(p, head, t.calls, MAX_TRIES);
    at := t.calls + Failing(p, head, t.calls, MAX_TRIES);
  }

  // ---------------------------------------------------------------- all batches

  /** How a batch ends, and what was done until then. */
  datatype Batch = Batch(trace: Trace, vectors: Option<seq<Vector>>)
  type Embedder = (seq<string>, Trace) -> Batch

  function Answered(p: Provider, head: seq<string>, t: Trace): Batch {
    Batch(AfterBatch(p, head, t), match Settled(p, head, t.calls) case None => None case Some(a) => Some(a.vectors))
  }

  /** The retried, paced and recorded call of a provider. */
  function Retried(p: Provider): Embedder {
    (head, t) => Answered(p, head, t)
  }

  /** `texts[start : start + batch]`. */
  function BatchAt(texts: seq<string>, start: nat, batch: nat): seq<string>
    requires start <= |texts|
  {
    texts[start..start + Min(batch, |texts| - start)]
  }

  /** `embed` on a positive batch size, from the batch at `start` on. */
  function EmbedFrom(one: Embedder, texts: seq<string>, start: nat, batch: nat, t: Trace): Outcome
    requires batch > 0 && start <= |texts|
    decreases |texts| - start
  {
    if start == |texts| then Outcome(t, Success([]))
    else
      var head := BatchAt(texts, start, batch);
      var b := one(head, t);
      if b.vectors.None? then Outcome(b.trace, Failure(UpstreamFailed))
      else Prefixed(b.vectors.value, EmbedFrom(one, texts, start + |head|, batch, b.trace))
  }

  function Prefixed(vectors: seq<Vector>, o: Outcome): Outcome {
    match o.result
    case Success(rest) => o.(result := Success(vectors + rest))
    case Failure(_) => o
  }

  /** `embed` for any setting of the batch size: `range` refuses zero and is empty for a negative
      step. */
  function EmbedOf(p: Provider, texts: seq<string>, batch: int, t: Trace): Outcome {
    if texts == [] || batch < 0 then Outcome(t, Success([]))
    else if batch == 0 then Outcome(t, Failure(ZeroStep))
    else EmbedFrom(Retried(p), texts, 0, batch, t)
  }

  // ---------------------------------------------------------------- the map it stands for

  predicate Matches(made: (string, Vector) -> bool, texts: seq<string>, vectors: seq<Vector>) {
    |vectors| == |texts| && forall i | 0 <= i < |texts| :: made(texts[i], vectors[i])
  }

  /** `made` relates each text of every answered batch to its vector, one vector a text. */
  ghost predicate OneEach(one: Embedder, made: (string, Vector) -> bool) {
    forall head: seq<string>, t: Trace :: one(head, t).vectors.Some? ==> Matches(made, head, one(head, t).vectors.value)
  }

  lemma {:induction false} OutputMatches(one: Embedder, made: (string, Vector) -> bool, texts: seq<string>, start: nat,
                                         batch: nat, t: Trace)
    requires batch > 0 && start <= |texts| && OneEach(one, made)
    ensures var o := EmbedFrom(one, texts, start, batch, t);
            o.result.Success? ==> Matches(made, texts[start..], o.result.value)
    decreases |texts| - start
  {
    if start < |texts| {
      var head := BatchAt(texts, start, batch);
      var b := one(head, t);
      if b.vectors.Some? {
        OutputMatches(one, made, texts, start + |head|, batch, b.trace);
        var rest := EmbedFrom(one, texts, start + |head|, batch, b.trace);
        if rest.result.Success? {
          MatchesConcat(made, head, texts[start + |head|..], b.vectors.value, rest.result.value);
          assert texts[start..] == head + texts[start + |head|..];
        }
      }
    }
  }

  lemma MatchesConcat(made: (string, Vector) -> bool, a: seq<string>, b: seq<string>, u: seq<Vector>, v: seq<Vector>)
    requires Matches(made, a, u) && Matches(made, b, v)
    ensures Matches(made, a + b, u + v)
  {
  }

  /** One vector a text, so related, in every answer of the provider. */
  ghost predicate Provides(p: Provider, made: (string, Vector) -> bool) {
    forall at: nat, texts: seq<string> | p(at, texts).Vectors? :: Matches(made, texts, p(at, texts).vectors)
  }

  /** If every answer of the provider has one vector a text, related to it in whatever way, then so
      has the whole output, position by position, for every batch size. */
  lemma EveryTextMatched(p: Provider, made: (string, Vector) -> bool, texts: seq<string>, batch: nat, t: Trace)
    requires batch > 0 && Provides(p, made)
    ensures var o := EmbedFrom(Retried(p), texts, 0, batch, t);
            o.result.Success? ==> Matches(made, texts, o.result.value)
  {
    OutputMatches(Retried(p), made, texts, 0, batch, t);
    assert texts[0..] == texts;
  }

  function Mapped(e: string -> Vector, texts: seq<string>): seq<Vector> {
    seq(|texts|, i requires 0 <= i < |texts| => e(texts[i]))
  }

  ghost predicate Faithful(p: Provider, e: string -> Vector) {
    forall at: nat, texts: seq<string> | p(at, texts).Vectors? :: p(at, texts).vectors == Mapped(e, texts)
  }

  /** Batching, pacing and retrying are invisible in the output: it is the plain map, so no two
      batch sizes can differ. */
  lemma RefinesMap(p: Provider, e: string -> Vector, texts: seq<string>, batch: nat, t: Trace)
    requires batch > 0 && Faithful(p, e)
    ensures var o := EmbedFrom(Retried(p), texts, 0, batch, t); o.result.Success? ==> o.result.value == Mapped(e, texts)
  {
    var made := (x: string, v: Vector) => v == e(x);
    forall at: nat, ts: seq<string> | p(at, ts).Vectors? ensures Matches(made, ts, p(at, ts).vectors) { }
    EveryTextMatched(p, made, texts, batch, t);
  }

  /** Every text is embedded exactly if the batch size is positive or there is none; a negative one
      reports success and embeds nothing. */
  lemma CompleteIff(p: Provider, e: string -> Vector, texts: seq<string>, batch: int, t: Trace)
    requires Faithful(p, e) && EmbedOf(p, texts, batch, t).result.Success?
    ensures EmbedOf(p, texts, batch, t).result.value == Mapped(e, texts) <==> batch > 0 || texts == []
  {
    if batch > 0 { RefinesMap(p, e, texts, batch, t); }
    else if texts != [] { assert |Mapped(e, texts)| > 0; }
  }

  /** One text at batch size -1: success, no vector, and no call of the provider. */
  lemma NegativeBatch(p: Provider, e: string -> Vector, text: string, t: Trace)
    ensures EmbedOf(p, [text], -1, t) == Outcome(t, Success([])) && |Mapped(e, [text])| == 1
  {
  }

  /** A batch size of zero is an error, unless there is nothing to embed. */
  lemma ZeroBatch(p: Provider, texts: seq<string>, t: Trace)
    ensures EmbedOf(p, texts, 0, t) == Outcome(t, if texts == [] then Success([]) else Failure(ZeroStep))
  {
  }

  // ---------------------------------------------------------------- what it costs

  /** How many batches `n` texts make. */
  function Batches(n: nat, batch: nat): nat
    requires batch > 0
  {
    if n == 0 then 0 else 1 + Batches(n - Min(batch, n), batch)
  }

  lemma {:induction false} BatchesAreCeiling(n: nat, batch: nat)
    requires batch > 0
    ensures Batches(n, batch) == (n + batch - 1) / batch
  {
    if n > batch {
      BatchesAreCeiling(n - batch, batch);
      DivStep(n - batch + batch - 1, batch);
    } else if n > 0 {
      DivStep(n - 1, batch);
      DivSmall(n - 1, batch);
      assert n + batch - 1 == (n - 1) + batch;
      assert Batches(0, batch) == 0;
    } else {
      DivSmall(batch - 1, batch);
    }
  }

  lemma DivStep(x: nat, y: nat)
    requires y > 0
    ensures (x + y) / y == x / y + 1
  {
    var d := (x + y) / y - x / y - 1;
    assert y * d == x % y - (x + y) % y;
    OnlyZero(y, d);
  }

  lemma OnlyZero(y: int, d: int)
    requires -y < y * d < y
    ensures d == 0
  {
  }

  lemma DivSmall(x: nat, y: nat)
    requires x < y
    ensures x / y == 0
  {
  }

  /** One acquisition, one to three calls and the sleeps between them, and `records` usage records. */
  predicate Spent(t: Trace, t': Trace, records: nat) {
    && t'.acquired == t.acquired + 1 && t.calls < t'.calls <= t.calls + 3
    && |t'.sleeps| == |t.sleeps| + (t'.calls - t.calls) - 1 && |t'.usage| == |t.usage| + records
  }

  /** A pass that answered `done` batches, and asked for one more if it did not end well. */
  predicate Balanced(t: Trace, t': Trace, done: nat, ended: bool) {
    var acquired := t'.acquired - t.acquired;
    && acquired == (if ended then done else done + 1) && |t'.usage| == |t.usage| + done
    && t.calls + acquired <= t'.calls <= t.calls + 3 * acquired
    && |t'.sleeps| - |t.sleeps| == (t'.calls - t.calls) - acquired
  }

  ghost predicate Spends(one: Embedder) {
    forall head: seq<string>, t: Trace ::
      Spent(t, one(head, t).trace, if one(head, t).vectors.Some? then 1 else 0)
  }

  lemma {:induction false} PassBalances(one: Embedder, texts: seq<string>, start: nat, batch: nat, t: Trace)
    returns (done: nat, asked: seq<string>, at: Trace)
    requires batch > 0 && start <= |texts| && Spends(one)
    ensures var o := EmbedFrom(one, texts, start, batch, t);
            && Balanced(t, o.trace, done, o.result.Success?)
            && (if o.result.Success? then done == Batches(|texts| - start, batch)
                else done < Batches(|texts| - start, batch) && one(asked, at) == Batch(o.trace, None))
    decreases |texts| - start
  {
    done, asked, at := 0, [], t;
    if start < |texts| {
      var head := BatchAt(texts, start, batch);
      var b := one(head, t);
      if b.vectors.None? { asked := head; }
      else {
        done, asked, at := PassBalances(one, texts, start + |head|, batch, b.trace);
        done := done + 1;
      }
    }
  }

  lemma RetriedSpends(p: Provider)
    ensures Spends(Retried(p))
  {
    forall head: seq<string>, t: Trace
      ensures Spent(t, Retried(p)(head, t).trace, if Retried(p)(head, t).vectors.Some? then 1 else 0)
    {
      FailingIs(p, head, t.calls, MAX_TRIES);
    }
  }

  /** A pass makes one acquisition a batch and one usage record a batch that was answered. It
      succeeds exactly if all batches were; otherwise it stops at the first that was not, with the
      records of those before it. Retries are not paced: there are up to three provider calls for
      one acquisition. */
  lemma Accounting(p: Provider, texts: seq<string>, batch: nat, t: Trace)
    returns (done: nat, asked: seq<string>, at: Trace)
    requires batch > 0
    ensures var o, all := EmbedFrom(Retried(p), texts, 0, batch, t), (|texts| + batch - 1) / batch;
            && Balanced(t, o.trace, done, o.result.Success?)
            && (if o.result.Success? then done == all else done < all && Settled(p, asked, at.calls) == None)
  {
    RetriedSpends(p);
    BatchesAreCeiling(|texts|, batch);
    done, asked, at := PassBalances(Retried(p), texts, 0, batch, t);
  }

  // ---------------------------------------------------------------- recovery

  /** No permanent refusal, and never three transient failures in a row. */
  ghost predicate Recovers(p: Provider) {
    forall at: nat, texts: seq<string> :: p(at, texts) != Permanent && Failing(p, texts, at, MAX_TRIES) < MAX_TRIES
  }

  lemma {:induction false} PassSucceeds(one: Embedder, texts: seq<string>, start: nat, batch: nat, t: Trace)
    requires batch > 0 && start <= |texts| && forall head: seq<string>, t: Trace :: one(head, t).vectors.Some?
    ensures EmbedFrom(one, texts, start, batch, t).result.Success?
    decreases |texts| - start
  {
    if start < |texts| {
      var head := BatchAt(texts, start, batch);
      PassSucceeds(one, texts, start + |head|, batch, one(head, t).trace);
    }
  }

  /** A provider that recovers within three calls is never noticed. */
  lemma AlwaysSucceeds(p: Provider, texts: seq<string>, batch: nat, t: Trace)
    requires batch > 0 && Recovers(p)
    ensures EmbedFrom(Retried(p), texts, 0, batch, t).result.Success?
  {
    forall head: seq<string>, t: Trace ensures Retried(p)(head, t).vectors.Some? { NeverNone(p, head, t.calls); }
    PassSucceeds(Retried(p), texts, 0, batch, t);
  }

  lemma NeverNone(p: Provider, texts: seq<string>, at: nat)
    requires Recovers(p)
    ensures Settled(p, texts, at).Some?
  {
    FailingIs(p, texts, at, MAX_TRIES);
    assert p(at + Failing(p, texts, at, MAX_TRIES), texts) != Permanent;
  }

  // ---------------------------------------------------------------- the code

  class Gateway {
    const provider: Provider
    const batchSize: int
    var calls: nat
    var sleeps: seq<nat>
    var acquired: nat
    var usage: seq<Usage>

    function Done(): Trace
      reads this
    {
      Trace(calls, sleeps, acquired, usage)
    }

    constructor (provider: Provider, batchSize: int)
      ensures this.provider == provider && this.batchSize == batchSize && Done() == Trace(0, [], 0, [])
    {
      this.provider, this.batchSize := provider, batchSize;
      calls, sleeps, acquired, usage := 0, [], 0, [];
    }

    /** `_with_retry` around one embedding call. */
    method WithRetry(texts: seq<string>) returns (answer: Option<Answer>)
      modifies this`calls, this`sleeps
      ensures answer == Settled(provider, texts, old(calls)) && Done() == Tried(provider, texts, old(Done()))
    {
      ghost var start := calls;
      var attempt := 1;
      answer := None;
      while attempt <= MAX_TRIES
        invariant 1 <= attempt <= MAX_TRIES && calls == start + attempt - 1
                  && sleeps == old(sleeps) + [2, 4][..attempt - 1]
        invariant forall j: nat | start <= j < calls :: provider(j, texts) == Transient
        decreases MAX_TRIES - attempt
      {
        FailingFrom(provider, texts, start, MAX_TRIES, attempt - 1);
        var reply := provider(calls, texts);
        calls := calls + 1;
        if reply.Vectors? { return Some(reply); }
        if reply == Permanent || attempt == MAX_TRIES { return None; }
        assert Pow2(1) == 2 && Pow2(2) == 4;
        sleeps := sleeps + [Min(Pow2(attempt), 10)];
        attempt := attempt + 1;
      }
    }

    /** `embed`. */
    method Embed(texts: seq<string>) returns (result: Result<seq<Vector>, EmbedError>)
      modifies this
      ensures EmbedOf(provider, texts, batchSize, old(Done())) == Outcome(Done(), result)
    {
      if texts == [] || batchSize < 0 { return Success([]); }
      if batchSize == 0 { return Failure(ZeroStep); }
      result := EmbedBatches(texts, Retried(provider));
    }

    method EmbedBatches(texts: seq<string>, ghost one: Embedder) returns (result: Result<seq<Vector>, EmbedError>)
      requires batchSize > 0 && one == Retried(provider)
      modifies this
      ensures EmbedFrom(one, texts, 0, batchSize, old(Done())) == Outcome(Done(), result)
    {
      var out: seq<Vector> := [];
      var start := 0;
      ghost var whole := EmbedFrom(one, texts, 0, batchSize, Done());
      ghost var left := whole;
      PrefixedNone(whole);
      while start < |texts|
        invariant 0 <= start <= |texts|
        invariant left == EmbedFrom(one, texts, start, batchSize, Done()) && whole == Prefixed(out, left)
      {
        var head := BatchAt(texts, start, batchSize);
        ghost var b, rest := BatchTurn(one, texts, start, batchSize, Done(), head, out, left, whole);
        var vectors := OneBatch(head, one);
        if vectors.None? { return Failure(UpstreamFailed); }
        out, left, start := out + vectors.value, rest, start + |head|;
      }
      assert out + [] == out;
      return Success(out);
    }

    method OneBatch(head: seq<string>, ghost one: Embedder) returns (vectors: Option<seq<Vector>>)
      requires one == Retried(provider)
      modifies this
      ensures Batch(Done(), vectors) == one(head, old(Done()))
    {
      acquired := acquired + 1;
      var answer := WithRetry(head);
      match answer
      case None => vectors := None;
      case Some(a) =>
        usage := usage + [a.usage];
        vectors := Some(a.vectors);
    }
  }

  /** One turn of the loop over the batches. */
  lemma BatchTurn(one: Embedder, texts: seq<string>, start: nat, batch: nat, t: Trace, head: seq<string>,
                  out: seq<Vector>, left: Outcome, whole: Outcome) returns (b: Batch, rest: Outcome)
    requires batch > 0 && start < |texts| && head == BatchAt(texts, start, batch)
    requires left == EmbedFrom(one, texts, start, batch, t) && whole == Prefixed(out, left)
    ensures b == one(head, t) && (b.vectors.None? ==> whole == Outcome(b.trace, Failure(UpstreamFailed)))
    ensures b.vectors.Some? ==>
              rest == EmbedFrom(one, texts, start + |head|, batch, b.trace)
              && whole == Prefixed(out + b.vectors.value, rest)
  {
    b := one(head, t);
    rest := EmbedFrom(one, texts, start + |head|, batch, b.trace);
    if b.vectors.Some? { PrefixedTwice(out, b.vectors.value, rest, left, whole); }
  }

  lemma PrefixedNone(o: Outcome)
    ensures Prefixed([], o) == o
  {
    if o.result.Success? { assert [] + o.result.value == o.result.value; }
  }

  lemma PrefixedTwice(u: seq<Vector>, v: seq<Vector>, o: Outcome, left: Outcome, whole: Outcome)
    requires left == Prefixed(v, o) && whole == Prefixed(u, left)
    ensures whole == Prefixed(u + v, o)
  {
    if o.result.Success? { assert u + (v + o.result.value) == u + v + o.result.value; }
  }
}
