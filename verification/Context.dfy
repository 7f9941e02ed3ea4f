/** Context assembly: whole chunks in rank order under a token budget. */
module Context {
  import opened Wrappers
  import opened Text
  import opened Windows
  import opened Retrieval

  /** A chunk as it is shown to the model. */
  function Block(c: Chunk): string {
    "[Source: " + c.documentName
    + (if c.ref.Some? && c.ref.value != "" then " \U{2014} " + c.ref.value + "]" else "]")
    + "\n" + c.text
  }

  function Cost(count: Counter, c: Chunk): nat {
    count(Block(c))
  }

  function Total(count: Counter, cs: seq<Chunk>): nat {
    if cs == [] then 0 else Total(count, cs[..|cs| - 1]) + Cost(count, cs[|cs| - 1])
  }

  function Costs(count: Counter, cs: seq<Chunk>): seq<nat> {
    seq(|cs|, k requires 0 <= k < |cs| => Cost(count, cs[k]))
  }

  predicate Below(positions: seq<nat>, n: nat) {
    forall k | 0 <= k < |positions| :: positions[k] < n
  }

  function SumAt(costs: seq<nat>, positions: seq<nat>): nat
    requires Below(positions, |costs|)
  {
    if positions == [] then 0
    else SumAt(costs, positions[..|positions| - 1]) + costs[positions[|positions| - 1]]
  }

  /** The positions taken among the first `n` when they are offered in order, each one if it still
      fits. */
  function Taken(costs: seq<nat>, n: nat, cap: nat): (t: seq<nat>)
    requires n <= |costs|
    ensures Below(t, n)
  {
    if n == 0 then []
    else
      var before := Taken(costs, n - 1, cap);
      if SumAt(costs, before) + costs[n - 1] > cap then before else before + [n - 1]
  }

  function At(chunks: seq<Chunk>, positions: seq<nat>): seq<Chunk>
    requires Below(positions, |chunks|)
  {
    seq(|positions|, k requires 0 <= k < |positions| => chunks[positions[k]])
  }

  function Blocks(cs: seq<Chunk>): seq<string> {
    seq(|cs|, k requires 0 <= k < |cs| => Block(cs[k]))
  }

  lemma SumSnoc(costs: seq<nat>, positions: seq<nat>, i: nat)
    requires Below(positions, |costs|) && i < |costs|
    ensures SumAt(costs, positions + [i]) == SumAt(costs, positions) + costs[i]
  {
    assert (positions + [i])[..|positions|] == positions;
  }

  predicate Increasing(positions: seq<nat>) {
    forall i, j | 0 <= i < j < |positions| :: positions[i] < positions[j]
  }

  /** Positions among the first `n`, in order and within the budget; every other one of the first
      `n` would not fit into what remains of it. */
  predicate Maximal(costs: seq<nat>, n: nat, cap: nat, t: seq<nat>)
    requires n <= |costs| && Below(t, n)
  {
    Increasing(t) && SumAt(costs, t) <= cap && forall i: nat | i < n && i !in t :: SumAt(costs, t) + costs[i] > cap
  }

  lemma MaximalSkips(costs: seq<nat>, n: nat, cap: nat, t: seq<nat>)
    requires n < |costs| && Below(t, n) && Maximal(costs, n, cap, t) && SumAt(costs, t) + costs[n] > cap
    ensures Maximal(costs, n + 1, cap, t)
  {
  }

  lemma MaximalTakes(costs: seq<nat>, n: nat, cap: nat, t: seq<nat>)
    requires n < |costs| && Below(t, n) && Maximal(costs, n, cap, t) && SumAt(costs, t) + costs[n] <= cap
    ensures Maximal(costs, n + 1, cap, t + [n])
  {
    SumSnoc(costs, t, n);
    forall i: nat | i < n + 1 && i !in t + [n] ensures SumAt(costs, t + [n]) + costs[i] > cap {
      assert (t + [n])[|t|] == n;
      assert i !in t;
    }
  }

  lemma TakenStep(costs: seq<nat>, n: nat, cap: nat, before: seq<nat>)
    requires n < |costs| && before == Taken(costs, n, cap)
    ensures SumAt(costs, before) + costs[n] > cap ==> Taken(costs, n + 1, cap) == before
    ensures SumAt(costs, before) + costs[n] <= cap ==> Taken(costs, n + 1, cap) == before + [n]
  {
  }

  lemma StepIsMaximal(costs: seq<nat>, n: nat, cap: nat, before: seq<nat>) returns (t: seq<nat>)
    requires n < |costs| && before == Taken(costs, n, cap) && Maximal(costs, n, cap, before)
    ensures t == Taken(costs, n + 1, cap) && Maximal(costs, n + 1, cap, t)
  {
    TakenStep(costs, n, cap, before);
    if SumAt(costs, before) + costs[n] > cap {
      MaximalSkips(costs, n, cap, before);
      t := before;
    } else {
      MaximalTakes(costs, n, cap, before);
      t := before + [n];
    }
  }

  /** Greedy packing is maximal. */
  lemma {:induction false} TakenIsMaximal(costs: seq<nat>, n: nat, cap: nat) returns (t: seq<nat>)
    requires n <= |costs|
    ensures t == Taken(costs, n, cap) && Maximal(costs, n, cap, t)
  {
    if n == 0 { t := []; }
    else {
      var before := TakenIsMaximal(costs, n - 1, cap);
      t := StepIsMaximal(costs, n - 1, cap, before);
    }
  }

  /** The loop's variables after `i` chunks, of which those at `t` were taken. */
  ghost predicate Packed(chunks: seq<Chunk>, costs: seq<nat>, cap: nat, i: nat, t: seq<nat>,
                         used: seq<Chunk>, parts: seq<string>, total: nat) {
    && i <= |chunks| == |costs| && t == Taken(costs, i, cap) && Below(t, |chunks|)
    && used == At(chunks, t) && parts == Blocks(used) && total == SumAt(costs, t)
  }

  lemma PackSkips(chunks: seq<Chunk>, costs: seq<nat>, cap: nat, i: nat, t: seq<nat>,
                  used: seq<Chunk>, parts: seq<string>, total: nat, tk: nat)
    requires Packed(chunks, costs, cap, i, t, used, parts, total) && i < |chunks| && tk == costs[i] && total + tk > cap
    ensures Packed(chunks, costs, cap, i + 1, t, used, parts, total)
  {
    TakenStep(costs, i, cap, t);
  }

  lemma PackTakes(chunks: seq<Chunk>, costs: seq<nat>, cap: nat, i: nat, t: seq<nat>,
                  used: seq<Chunk>, parts: seq<string>, total: nat, tk: nat) returns (t': seq<nat>)
    requires Packed(chunks, costs, cap, i, t, used, parts, total) && i < |chunks| && tk == costs[i] && total + tk <= cap
    ensures Packed(chunks, costs, cap, i + 1, t', used + [chunks[i]], parts + [Block(chunks[i])], total + tk)
  {
    t' := t + [i];
    TakenStep(costs, i, cap, t);
    SumSnoc(costs, t, i);
  }

  // ---------------------------------------------------------------- what the model is shown

  predicate Stands(s: string, at: nat, part: string) {
    at + |part| <= |s| && s[at..at + |part|] == part
  }

  /** How much of the context a chunk takes up. */
  function Width(c: Chunk): nat {
    11 + |c.documentName| + (if Titled(c) then 3 + |c.ref.value| else 0) + |c.text|
  }

  predicate Titled(c: Chunk) {
    c.ref.Some? && c.ref.value != ""
  }

  /** The name of its document, and its reference if it has one. */
  predicate HeadShown(s: string, at: nat, c: Chunk) {
    var end := at + 9 + |c.documentName|;
    && Stands(s, at, "[Source: ") && Stands(s, at + 9, c.documentName)
    && if Titled(c) then
         Stands(s, end, " \U{2014} ") && Stands(s, end + 3, c.ref.value) && Stands(s, end + 3 + |c.ref.value|, "]\n")
       else Stands(s, end, "]\n")
  }

  /** A chunk as it is shown at `at`: what it comes from, and after a line break the whole of its text. */
  predicate Shown(s: string, at: nat, c: Chunk) {
    HeadShown(s, at, c) && Stands(s, at + Width(c) - |c.text|, c.text)
  }

  /** From `at` on the string holds these chunks one after the other, each as `shown` says, a blank line between
      two of them, and nothing else. */
  predicate LaidOut(shown: (string, nat, Chunk) -> bool, s: string, at: nat, cs: seq<Chunk>)
    decreases |cs|
  {
    if cs == [] then at == |s|
    else
      && shown(s, at, cs[0])
      && if |cs| == 1 then at + Width(cs[0]) == |s|
         else Stands(s, at + Width(cs[0]), "\n\n") && LaidOut(shown, s, at + Width(cs[0]) + 2, cs[1..])
  }

  lemma BlockWidth(c: Chunk)
    ensures |Block(c)| == Width(c) && Stands(Block(c), Width(c) - |c.text|, c.text)
  {
  }

  lemma TitledHead(c: Chunk)
    requires Titled(c)
    ensures HeadShown(Block(c), 0, c)
  {
  }

  lemma PlainHead(c: Chunk)
    requires !Titled(c)
    ensures HeadShown(Block(c), 0, c)
  {
  }

  lemma BlockIsShown(c: Chunk)
    ensures |Block(c)| == Width(c) && Shown(Block(c), 0, c)
  {
    BlockWidth(c);
    if Titled(c) { TitledHead(c); } else { PlainHead(c); }
  }

  lemma StandsLater(all: string, pre: string, s: string, post: string, at: nat, part: string)
    requires Stands(s, at, part) && all == pre + s + post
    ensures Stands(all, |pre| + at, part)
  {
    assert all[|pre| + at..|pre| + at + |part|] == s[at..at + |part|];
  }

  lemma HeadLater(all: string, pre: string, s: string, post: string, c: Chunk)
    requires HeadShown(s, 0, c) && all == pre + s + post
    ensures HeadShown(all, |pre|, c)
  {
    var end := 9 + |c.documentName|;
    StandsLater(all, pre, s, post, 0, "[Source: ");
    StandsLater(all, pre, s, post, 9, c.documentName);
    if Titled(c) {
      StandsLater(all, pre, s, post, end, " \U{2014} ");
      StandsLater(all, pre, s, post, end + 3, c.ref.value);
      StandsLater(all, pre, s, post, end + 3 + |c.ref.value|, "]\n");
    } else {
      StandsLater(all, pre, s, post, end, "]\n");
    }
  }

  lemma ShownLater(all: string, pre: string, s: string, post: string, c: Chunk)
    requires Shown(s, 0, c) && all == pre + s + post
    ensures Shown(all, |pre|, c)
  {
    HeadLater(all, pre, s, post, c);
    StandsLater(all, pre, s, post, Width(c) - |c.text|, c.text);
  }

  ghost predicate ShownAnywhere(shown: (string, nat, Chunk) -> bool) {
    forall pre: string, c: Chunk, post: string :: shown(pre + Block(c) + post, |pre|, c)
  }

  lemma BlocksAreShown()
    ensures ShownAnywhere(Shown)
  {
    forall pre: string, c: Chunk, post: string ensures Shown(pre + Block(c) + post, |pre|, c) {
      BlockIsShown(c);
      ShownLater(pre + Block(c) + post, pre, Block(c), post, c);
    }
  }

  lemma FirstShown(shown: (string, nat, Chunk) -> bool, pre: string, c: Chunk, post: string) returns (block: string)
    requires ShownAnywhere(shown)
    ensures block == Block(c) && |block| == Width(c) && shown(pre + block + post, |pre|, c)
  {
    block := Block(c);
    BlockIsShown(c);
  }

  lemma BlocksCons(cs: seq<Chunk>) returns (parts: seq<string>)
    requires cs != []
    ensures parts == Blocks(cs) && parts[0] == Block(cs[0]) && parts[1..] == Blocks(cs[1..])
  {
    parts := Blocks(cs);
  }

  lemma JoinCons(pre: string, parts: seq<string>, sep: string) returns (s: string)
    requires |parts| >= 2
    ensures s == pre + Join(parts, sep)
    ensures s == pre + parts[0] + (sep + Join(parts[1..], sep)) == (pre + parts[0] + sep) + Join(parts[1..], sep)
    ensures Stands(s, |pre| + |parts[0]|, sep)
  {
    s := pre + Join(parts, sep);
    assert s == pre + parts[0] + (sep + Join(parts[1..], sep));
  }

  /** The joined blocks, behind anything, are laid out as their own predicate says. */
  lemma {:induction false} JoinLaysOut(shown: (string, nat, Chunk) -> bool, pre: string, cs: seq<Chunk>)
    returns (s: string)
    requires ShownAnywhere(shown)
    ensures s == pre + Join(Blocks(cs), "\n\n") && LaidOut(shown, s, |pre|, cs)
    decreases |cs|
  {
    if cs == [] { s := pre + ""; }
    else if |cs| == 1 {
      var block := FirstShown(shown, pre, cs[0], "");
      s := pre + block + "";
    } else {
      var parts := BlocksCons(cs);
      var block := FirstShown(shown, pre, cs[0], "\n\n" + Join(parts[1..], "\n\n"));
      var later := JoinLaysOut(shown, pre + block + "\n\n", cs[1..]);
      s := JoinCons(pre, parts, "\n\n");
    }
  }

  lemma CostAt(count: Counter, chunks: seq<Chunk>, i: nat)
    requires i < |chunks|
    ensures Costs(count, chunks)[i] == count(Block(chunks[i]))
  {
  }

  /** `assemble_context`; a limit of zero stands for none given. */
  method AssembleContext(count: Counter, chunks: seq<Chunk>, maxTokens: nat, default: nat)
    returns (context: string, used: seq<Chunk>, total: nat, truncated: bool)
    ensures var t := Taken(Costs(count, chunks), |chunks|, if maxTokens == 0 then default else maxTokens);
            && used == At(chunks, t) && total == SumAt(Costs(count, chunks), t) && context == Join(Blocks(used), "\n\n")
            && (truncated <==> |used| < |chunks|)
    ensures LaidOut(Shown, context, 0, used)
  {
    var cap := OrDefault(maxTokens, default);
    var parts: seq<string> := [];
    ghost var costs := Costs(count, chunks);
    used, total, truncated := [], 0, false;
    var i := 0;
    ghost var t: seq<nat> := [];
    NothingPacked(chunks, costs, cap);
    while i < |chunks|
      invariant 0 <= i <= |chunks| && |used| <= i && (truncated <==> |used| < i)
      invariant Packed(chunks, costs, cap, i, t, used, parts, total)
    {
      var taken: bool;
      taken, used, parts, total, t := Offer(count, chunks, costs, cap, i, t, used, parts, total);
      if !taken { truncated := true; }
      i := i + 1;
    }
    context := Join(parts, "\n\n");
    PackedIs(chunks, costs, cap, t, used, parts, total);
    ContextIsLaidOut(context, used, parts);
  }

  lemma NothingPacked(chunks: seq<Chunk>, costs: seq<nat>, cap: nat)
    requires |costs| == |chunks|
    ensures Packed(chunks, costs, cap, 0, [], [], [], 0)
  {
  }

  lemma PackedIs(chunks: seq<Chunk>, costs: seq<nat>, cap: nat, t: seq<nat>, used: seq<Chunk>, parts: seq<string>,
                 total: nat)
    requires Packed(chunks, costs, cap, |chunks|, t, used, parts, total)
    ensures |costs| == |chunks| && t == Taken(costs, |chunks|, cap) && used == At(chunks, t)
    ensures parts == Blocks(used) && total == SumAt(costs, t)
  {
  }

  /** One turn of the loop: the chunk is taken if it still fits. */
  method Offer(count: Counter, chunks: seq<Chunk>, ghost costs: seq<nat>, cap: nat, i: nat, ghost t: seq<nat>,
               used: seq<Chunk>, parts: seq<string>, total: nat)
    returns (taken: bool, used': seq<Chunk>, parts': seq<string>, total': nat, ghost t': seq<nat>)
    requires costs == Costs(count, chunks) && i < |chunks| && Packed(chunks, costs, cap, i, t, used, parts, total)
    ensures Packed(chunks, costs, cap, i + 1, t', used', parts', total')
    ensures |used'| == |used| + (if taken then 1 else 0)
  {
    used', parts', total', t' := used, parts, total, t;
    var block := Block(chunks[i]);
    var tk := count(block);
    CostAt(count, chunks, i);
    taken := total + tk <= cap;
    if taken {
      t' := PackTakes(chunks, costs, cap, i, t, used, parts, total, tk);
      parts', used', total' := parts + [block], used + [chunks[i]], total + tk;
    } else {
      PackSkips(chunks, costs, cap, i, t, used, parts, total, tk);
    }
  }

  lemma ContextIsLaidOut(context: string, used: seq<Chunk>, parts: seq<string>)
    requires parts == Blocks(used) && context == Join(parts, "\n\n")
    ensures LaidOut(Shown, context, 0, used)
  {
    BlocksAreShown();
    var laidOut := JoinLaysOut(Shown, "", used);
    assert laidOut == context;
  }

  /** The reported total is the cost of the chunks that were used. */
  lemma {:induction false} SumIsTotal(count: Counter, chunks: seq<Chunk>, positions: seq<nat>)
    requires Below(positions, |chunks|)
    ensures SumAt(Costs(count, chunks), positions) == Total(count, At(chunks, positions))
    decreases |positions|
  {
    if positions != [] {
      var n := |positions| - 1;
      SumIsTotal(count, chunks, positions[..n]);
      assert At(chunks, positions)[..n] == At(chunks, positions[..n]);
    }
  }

  // ---------------------------------------------------------------- confidence of an answer

  /** The chunks an answer is given, as `AssembleContext` picks them. */
  function Used(count: Counter, chunks: seq<Chunk>, cap: nat): seq<Chunk> {
    At(chunks, Taken(Costs(count, chunks), |chunks|, cap))
  }

  lemma PrefixStep(a: seq<nat>, all: seq<nat>, n: nat, cap: nat, before: seq<nat>) returns (t: seq<nat>)
    requires n < |a| <= |all| && a[n] == all[n] && before == Taken(a, n, cap) && before == Taken(all, n, cap)
    requires SumAt(a, before) == SumAt(all, before)
    ensures t == Taken(a, n + 1, cap) && t == Taken(all, n + 1, cap) && Below(t, n + 1) && SumAt(a, t) == SumAt(all, t)
  {
    TakenStep(a, n, cap, before);
    TakenStep(all, n, cap, before);
    SumSnoc(a, before, n);
    SumSnoc(all, before, n);
    t := if SumAt(a, before) + a[n] > cap then before else before + [n];
  }

  /** Packing looks only at what comes before. */
  lemma {:induction false} TakenOfPrefix(a: seq<nat>, b: seq<nat>, n: nat, cap: nat) returns (t: seq<nat>)
    requires n <= |a|
    ensures t == Taken(a, n, cap) && t == Taken(a + b, n, cap) && Below(t, n) && SumAt(a, t) == SumAt(a + b, t)
    decreases n
  {
    if n == 0 { t := []; }
    else {
      var before := TakenOfPrefix(a, b, n - 1, cap);
      t := PrefixStep(a, a + b, n - 1, cap, before);
    }
  }

  /** `t` is `early` followed by positions from `m` on. */
  predicate Grows(early: seq<nat>, t: seq<nat>, m: nat) {
    |early| <= |t| && t[..|early|] == early && forall k | |early| <= k < |t| :: m <= t[k]
  }

  lemma GrowsStep(early: seq<nat>, before: seq<nat>, t: seq<nat>, m: nat, i: nat)
    requires Grows(early, before, m) && m <= i && (t == before || t == before + [i])
    ensures Grows(early, t, m)
  {
    if t != before { assert t[..|early|] == before[..|early|]; }
  }

  lemma TakenNext(costs: seq<nat>, n: nat, cap: nat, before: seq<nat>) returns (t: seq<nat>)
    requires n < |costs| && before == Taken(costs, n, cap)
    ensures t == Taken(costs, n + 1, cap) && (t == before || t == before + [n])
  {
    t := Taken(costs, n + 1, cap);
    TakenStep(costs, n, cap, before);
  }

  /** `n` more positions after `m`. */
  lemma {:induction false} TakenGrows(costs: seq<nat>, m: nat, n: nat, cap: nat, early: seq<nat>)
    returns (at: nat, t: seq<nat>)
    requires m + n <= |costs| && early == Taken(costs, m, cap)
    ensures at == m + n && t == Taken(costs, at, cap) && Grows(early, t, m)
    decreases n
  {
    if n == 0 { at, t := m, early; }
    else {
      var last, before := TakenGrows(costs, m, n - 1, cap, early);
      at := last + 1;
      t := TakenNext(costs, last, cap, before);
      GrowsStep(early, before, t, m, last);
    }
  }

  /** Packing the base with extras behind it uses the same base chunks as packing the base, and then
      perhaps some extras. */
  lemma ExtrasComeLast(count: Counter, base: seq<Chunk>, extras: seq<Chunk>, cap: nat) returns (more: seq<Chunk>)
    ensures Used(count, base + extras, cap) == Used(count, base, cap) + more
    ensures forall c | c in more :: c in extras
  {
    CostsConcat(count, base, extras);
    var early, t := PositionsGrow(Costs(count, base), Costs(count, extras), cap);
    more := AtSplits(base, extras, early, t);
  }

  lemma PositionsGrow(a: seq<nat>, b: seq<nat>, cap: nat) returns (early: seq<nat>, t: seq<nat>)
    ensures early == Taken(a, |a|, cap) && t == Taken(a + b, |a + b|, cap)
    ensures Below(early, |a|) && Below(t, |a + b|) && Grows(early, t, |a|)
  {
    early := TakenOfPrefix(a, b, |a|, cap);
    var at: nat;
    at, t := TakenGrows(a + b, |a|, |b|, cap, early);
  }

  lemma CostsConcat(count: Counter, a: seq<Chunk>, b: seq<Chunk>)
    ensures Costs(count, a + b) == Costs(count, a) + Costs(count, b)
  {
  }

  lemma AtSplits(base: seq<Chunk>, extras: seq<Chunk>, early: seq<nat>, t: seq<nat>) returns (more: seq<Chunk>)
    requires Below(early, |base|) && Below(t, |base + extras|) && Grows(early, t, |base|)
    ensures At(base + extras, t) == At(base, early) + more && forall c | c in more :: c in extras
  {
    var all := base + extras;
    var picked := At(all, t);
    more := picked[|early|..];
    assert picked[..|early|] == At(base, early) by {
      forall k | 0 <= k < |early| ensures picked[k] == At(base, early)[k] { assert t[k] == early[k]; }
    }
    forall c | c in more ensures c in extras {
      var k: nat :| k < |more| && more[k] == c;
      var at := t[|early| + k];
      assert picked[|early| + k] == all[at] == extras[at - |base|];
    }
  }

  lemma SumOne(c: Chunk)
    ensures Sum([c]) == c.score
  {
    assert [c][..0] == [];
  }

  lemma SumTwo(c: Chunk, d: Chunk)
    ensures Sum([c, d]) == c.score + d.score
  {
    SumOne(c);
    assert [c, d][..1] == [c];
  }

  lemma SumThree(c: Chunk, d: Chunk, e: Chunk)
    ensures Sum([c, d, e]) == c.score + d.score + e.score
  {
    SumTwo(c, d);
    assert [c, d, e][..2] == [c, d];
  }

  predicate Tied(cs: seq<Chunk>) {
    cs == [] || cs[0].score == cs[|cs| - 1].score
  }

  function Mean(cs: seq<Chunk>): real
    requires cs != []
  {
    Sum(cs) / |cs| as real
  }

  /** The mean of up to three chunks. */
  lemma MeanOfFew(cs: seq<Chunk>)
    requires 1 <= |cs| <= 3
    ensures |cs| == 1 ==> Mean(cs) == cs[0].score
    ensures |cs| == 2 ==> Mean(cs) == (cs[0].score + cs[1].score) / 2.0
    ensures |cs| == 3 ==> Mean(cs) == (cs[0].score + cs[1].score + cs[2].score) / 3.0
  {
    if |cs| == 1 { SumOne(cs[0]); assert cs == [cs[0]]; }
    else if |cs| == 2 { SumTwo(cs[0], cs[1]); assert cs == [cs[0], cs[1]]; }
    else { SumThree(cs[0], cs[1], cs[2]); assert cs == [cs[0], cs[1], cs[2]]; }
  }

  /** Scores that fall pull the mean down, unless they tie. */
  lemma MeanFalls(top: seq<Chunk>, m: nat)
    requires Sorted(top) && 1 <= m <= |top| <= 3
    ensures Mean(top) <= Mean(top[..m]) && (Mean(top) == Mean(top[..m]) <==> m == |top| || Tied(top))
  {
    var part := top[..m];
    MeanOfFew(top);
    MeanOfFew(part);
    if m == |top| { assert part == top; }
    else {
      var a, b, c := top[0].score, top[1].score, top[|top| - 1].score;
      assert a >= b >= c && part[0] == top[0];
      if m == 2 { assert part[1] == top[1]; FallsFromTwo(a, b, c); } else { FallsFromOne(a, b, c); }
    }
  }

  lemma FallsFromOne(a: real, b: real, c: real)
    requires a >= b >= c
    ensures (a + b) / 2.0 <= a && ((a + b) / 2.0 == a <==> a == b)
    ensures (a + b + c) / 3.0 <= a && ((a + b + c) / 3.0 == a <==> a == c)
  {
  }

  lemma FallsFromTwo(a: real, b: real, c: real)
    requires a >= b >= c
    ensures (a + b + c) / 3.0 <= (a + b) / 2.0 && ((a + b + c) / 3.0 == (a + b) / 2.0 <==> a == c)
  {
  }

  /** Adding chunks that score no higher leaves the mean of the first three alone or lowers it; it stays
      exactly if none of them comes among the first three or the first three tie. */
  lemma ConfidenceFalls(used: seq<Chunk>, more: seq<Chunk>)
    requires used != [] && Sorted(used + more)
    ensures Confidence(used + more) <= Confidence(used)
    ensures Confidence(used + more) == Confidence(used) <==> |used| >= 3 || more == [] || Tied(Take(used + more, 3))
  {
    var top := Take(used + more, 3);
    if |used| >= 3 { assert top == Take(used, 3); }
    else {
      assert top[..|used|] == used == Take(used, 3);
      MeanFalls(top, |used|);
    }
  }

  /** With nothing to start from, the confidence rises from zero to the mean of what was added. */
  lemma ConfidenceFromNothing(more: seq<Chunk>, threshold: real)
    requires forall c | c in more :: c.score >= threshold
    ensures Confidence([]) == 0.0 && Confidence([] + more) == Confidence(more)
    ensures more != [] ==> Confidence(more) >= threshold
  {
    assert [] + more == more;
    if more != [] {
      var top := Take(more, 3);
      MeanOfFew(top);
      forall i | 0 <= i < |top| ensures top[i].score >= threshold { assert top[i] in more; }
    }
  }

  /** What is packed stays in order. */
  lemma UsedIsSorted(count: Counter, chunks: seq<Chunk>, cap: nat)
    requires Sorted(chunks)
    ensures Sorted(Used(count, chunks, cap))
  {
    var t := TakenIsMaximal(Costs(count, chunks), |chunks|, cap);
    var used := Used(count, chunks, cap);
    forall i, j | 0 <= i < j < |used| ensures used[i].score >= used[j].score {
      assert used[i] == chunks[t[i]] && used[j] == chunks[t[j]];
    }
  }

  /** The confidence of an answer, taken over the chunks that fit into its context. If a base chunk fits,
      the graph can only lower it, and leaves it alone exactly if three base chunks fit, no extra does, or
      the first three used tie. If none fits, it lifts it from zero to no less than the threshold. */
  lemma AnswerConfidence(count: Counter, ranked: seq<Chunk>, k: nat, threshold: real, documents: seq<string>, cap: nat)
    returns (used: seq<Chunk>, more: seq<Chunk>)
    requires Ranked(ranked)
    ensures used == Used(count, Base(ranked, k, threshold), cap)
    ensures forall c | c in more :: c in Extras(ranked, k, threshold, documents)
    ensures var chunks := Merged(Base(ranked, k, threshold),
                                 Extra(Search(ranked, AUGMENT_LIMIT, threshold, [], documents)));
            Used(count, chunks, cap) == used + more
    ensures used != [] ==>
              && Confidence(used + more) <= Confidence(used)
              && (Confidence(used + more) == Confidence(used) <==>
                  |used| >= 3 || more == [] || Tied(Take(used + more, 3)))
    ensures used == [] ==> Confidence(used) == 0.0 && (more != [] ==> Confidence(used + more) >= threshold)
  {
    var base, extras := Base(ranked, k, threshold), Extras(ranked, k, threshold, documents);
    AugmentationAppends(ranked, k, threshold, documents);
    used := Used(count, base, cap);
    more := ExtrasComeLast(count, base, extras, cap);
    if used != [] {
      MergedIsSorted(base, Search(ranked, AUGMENT_LIMIT, threshold, [], documents));
      UsedIsSorted(count, base + extras, cap);
      ConfidenceFalls(used, more);
    } else {
      forall c | c in more ensures c.score >= threshold { ExtraIsAbove(ranked, k, threshold, documents, c); }
      ConfidenceFromNothing(more, threshold);
    }
  }

  lemma MergedIsSorted(base: seq<Chunk>, hits: seq<Chunk>)
    ensures Sorted(Merged(base, Extra(hits)))
  {
    SortIsSorted(base + Unseen(hits, Ids(base)));
  }

  lemma ExtraIsAbove(ranked: seq<Chunk>, k: nat, threshold: real, documents: seq<string>, c: Chunk)
    requires c in Extras(ranked, k, threshold, documents)
    ensures c.score >= threshold
  {
    UnseenMember(Search(ranked, AUGMENT_LIMIT, threshold, [], documents), Ids(Base(ranked, k, threshold)), c);
    assert c in Matching(ranked, threshold, [], documents);
    MatchingMember(ranked, threshold, [], documents, c);
  }

  /** Five base hits in a context of 8000 tokens: three of them too long for it, the other two with room
      for one extra that scores lower. The graph lowers the confidence of the answer. */
  lemma GraphLowersConfidence(b: seq<Chunk>, x: Chunk) returns (with: seq<Chunk>, without: seq<Chunk>)
    requires |b| == 5 && Ranked(b + [x]) && b[4].score > x.score >= 0.65
    requires forall i | 0 <= i < 5 :: b[i].documentId != x.documentId
    requires (forall i | 0 <= i < 3 :: |Block(b[i])| >= 32004) && |Block(b[3])| + |Block(b[4])| + |Block(x)| <= 32000
    ensures without == Used(FallbackCount, Base(b + [x], 5, 0.65), 8000)
    ensures with == Used(FallbackCount,
                         Merged(Base(b + [x], 5, 0.65),
                                Extra(Search(b + [x], AUGMENT_LIMIT, 0.65, [], [x.documentId]))),
                         8000)
    ensures Confidence(with) < Confidence(without)
  {
    var ranked, documents := b + [x], [x.documentId];
    BaseAndExtra(b, x);
    AugmentationAppends(ranked, 5, 0.65, documents);
    UsedOfFive(b);
    UsedOfSix(ranked);
    without, with := [b[3], b[4]], [b[3], b[4], x];
    assert with == without + [x] && ranked[3] == b[3] && ranked[4] == b[4] && ranked[5] == x;
    assert ranked[3].score >= ranked[4].score >= ranked[5].score;
    LowerByOne(b[3], b[4], x);
  }

  lemma LowerByOne(c: Chunk, d: Chunk, x: Chunk)
    requires c.score >= d.score > x.score
    ensures Confidence([c, d, x]) < Confidence([c, d])
  {
    assert [c, d] + [x] == [c, d, x];
    ConfidenceFalls([c, d], [x]);
  }

  lemma UsedOfFive(b: seq<Chunk>)
    requires |b| == 5 && (forall i | 0 <= i < 3 :: |Block(b[i])| >= 32004) && |Block(b[3])| + |Block(b[4])| <= 32000
    ensures Used(FallbackCount, b, 8000) == [b[3], b[4]]
  {
    forall c: Chunk ensures |Block(c)| >= 11 { }
    PacksLastTwo(Costs(FallbackCount, b));
  }

  lemma UsedOfSix(b: seq<Chunk>)
    requires |b| == 6 && (forall i | 0 <= i < 3 :: |Block(b[i])| >= 32004)
    requires |Block(b[3])| + |Block(b[4])| + |Block(b[5])| <= 32000
    ensures Used(FallbackCount, b, 8000) == [b[3], b[4], b[5]]
  {
    forall c: Chunk ensures |Block(c)| >= 11 { }
    PacksLastThree(Costs(FallbackCount, b));
  }

  lemma PacksLastTwo(costs: seq<nat>)
    requires |costs| >= 5 && (forall i | 0 <= i < 3 :: costs[i] > 8000) && costs[3] + costs[4] <= 8000
    ensures Taken(costs, 5, 8000) == [3, 4] && SumAt(costs, [3, 4]) == costs[3] + costs[4]
  {
    TakenStep(costs, 0, 8000, []);
    TakenStep(costs, 1, 8000, []);
    TakenStep(costs, 2, 8000, []);
    TakenStep(costs, 3, 8000, []);
    SumSnoc(costs, [], 3);
    assert [] + [3] == [3] && [3] + [4] == [3, 4] && SumAt(costs, [3]) == costs[3];
    SumSnoc(costs, [3], 4);
    TakenStep(costs, 4, 8000, [3]);
  }

  lemma PacksLastThree(costs: seq<nat>)
    requires |costs| == 6 && (forall i | 0 <= i < 3 :: costs[i] > 8000) && costs[3] + costs[4] + costs[5] <= 8000
    ensures Taken(costs, 6, 8000) == [3, 4, 5]
  {
    PacksLastTwo(costs);
    TakenStep(costs, 5, 8000, [3, 4]);
    assert [3, 4] + [5] == [3, 4, 5];
  }

  lemma BaseAndExtra(b: seq<Chunk>, x: Chunk)
    requires |b| == 5 && Ranked(b + [x]) && x.score >= 0.65 && forall i | 0 <= i < 5 :: b[i].documentId != x.documentId
    ensures Base(b + [x], 5, 0.65) == b && Extras(b + [x], 5, 0.65, [x.documentId]) == [x]
  {
    FirstFive(b, x);
    LastIsNew(b, x);
    OnlyLastMatches(b, x, 0.65, [x.documentId]);
    UnseenOne(x, Ids(b));
  }

  lemma FirstFive(b: seq<Chunk>, x: Chunk)
    requires |b| == 5 && Ranked(b + [x]) && x.score >= 0.65
    ensures Base(b + [x], 5, 0.65) == b
  {
    var ranked := b + [x];
    assert forall i | 0 <= i < 5 :: ranked[i].score >= ranked[5].score;
    AllMatch(ranked, 0.65);
    assert ranked[..5] == b;
  }

  lemma LastIsNew(b: seq<Chunk>, x: Chunk)
    requires Distinct(b + [x])
    ensures x.id !in Ids(b)
  {
    var ranked := b + [x];
    assert forall i | 0 <= i < |b| :: b[i] == ranked[i] && ranked[i].id != ranked[|b|].id;
  }

  lemma OnlyLastMatches(cs: seq<Chunk>, c: Chunk, threshold: real, documents: seq<string>)
    requires c.score >= threshold && c.documentId in documents
    requires forall i | 0 <= i < |cs| :: cs[i].documentId !in documents
    ensures Search(cs + [c], AUGMENT_LIMIT, threshold, [], documents) == [c]
  {
    NoneMatches(cs, threshold, documents);
    assert (cs + [c])[..|cs + [c]| - 1] == cs && [] + [c] == [c];
  }

  lemma UnseenOne(x: Chunk, seen: set<string>)
    requires x.id !in seen
    ensures Unseen([x], seen) == [x]
  {
    assert [x][..0] == [] && [] + [x] == [x];
  }

  lemma {:induction false} AllMatch(cs: seq<Chunk>, threshold: real)
    requires forall i | 0 <= i < |cs| :: cs[i].score >= threshold
    ensures Matching(cs, threshold, [], []) == cs
    decreases |cs|
  {
    if cs != [] { AllMatch(cs[..|cs| - 1], threshold); }
  }

  lemma {:induction false} NoneMatches(cs: seq<Chunk>, threshold: real, documents: seq<string>)
    requires documents != [] && forall i | 0 <= i < |cs| :: cs[i].documentId !in documents
    ensures Matching(cs, threshold, [], documents) == []
    decreases |cs|
  {
    if cs != [] { NoneMatches(cs[..|cs| - 1], threshold, documents); }
  }

  // ---------------------------------------------------------------- the joined string

  /** Characters of each block beyond its whole tokens. */
  function Rest(cs: seq<Chunk>): nat {
    if cs == [] then 0 else Rest(cs[..|cs| - 1]) + |Block(cs[|cs| - 1])| % 4
  }

  lemma {:induction false} BlocksLength(cs: seq<Chunk>)
    ensures TotalLength(Blocks(cs)) == 4 * Total(FallbackCount, cs) + Rest(cs)
    decreases |cs|
  {
    if cs != [] {
      var front, last := cs[..|cs| - 1], cs[|cs| - 1];
      BlocksLength(front);
      assert Blocks(cs) == Blocks(front) + [Block(last)];
      LengthSnoc(Blocks(front), Block(last));
      assert |Block(last)| >= 11;
    }
  }

  lemma {:induction false} LengthSnoc(ws: seq<string>, w: string)
    ensures TotalLength(ws + [w]) == TotalLength(ws) + |w|
    decreases |ws|
  {
    if ws == [] { assert (ws + [w])[1..] == []; }
    else {
      assert (ws + [w])[0] == ws[0] && (ws + [w])[1..] == ws[1..] + [w];
      LengthSnoc(ws[1..], w);
    }
  }

  lemma {:induction false} RestBound(cs: seq<Chunk>)
    ensures Rest(cs) <= 3 * |cs|
    decreases |cs|
  {
    if cs != [] { RestBound(cs[..|cs| - 1]); }
  }

  /** With the fallback counter the assembled string counts exactly the sum of its blocks plus a
      quarter of their leftover characters and of the newlines between them; that is at most
      (5n - 2) / 4 tokens more than the reported total. */
  lemma JoinedTokens(cs: seq<Chunk>)
    requires cs != []
    ensures var tokens := FallbackCount(Join(Blocks(cs), "\n\n"));
            && tokens == Total(FallbackCount, cs) + (Rest(cs) + 2 * (|cs| - 1)) / 4
            && tokens <= Total(FallbackCount, cs) + (5 * |cs| - 2) / 4
  {
    BlocksLength(cs);
    RestBound(cs);
    JoinLength(Blocks(cs), "\n\n");
    TotalAtLeast(cs);
    var length := |Join(Blocks(cs), "\n\n")|;
    assert length == 4 * Total(FallbackCount, cs) + Rest(cs) + 2 * (|cs| - 1);
  }

  lemma {:induction false} TotalAtLeast(cs: seq<Chunk>)
    ensures Total(FallbackCount, cs) >= 2 * |cs|
    decreases |cs|
  {
    if cs != [] {
      TotalAtLeast(cs[..|cs| - 1]);
      assert |Block(cs[|cs| - 1])| >= 11;
    }
  }

  /** The assembled string keeps the budget exactly if the leftovers and newlines fit into what the
      packing left of it. */
  lemma BudgetKeptIff(cs: seq<Chunk>, cap: nat)
    requires cs != [] && Total(FallbackCount, cs) <= cap
    ensures FallbackCount(Join(Blocks(cs), "\n\n")) <= cap <==>
            Rest(cs) + 2 * (|cs| - 1) < 4 * (cap - Total(FallbackCount, cs) + 1)
  {
    JoinedTokens(cs);
  }

  /** Two chunks whose blocks have 515 characters each fill the smallest budget a caller may set, 256:
      the packing reports 256 tokens, the string counts 258. */
  lemma BudgetPassed(c: Chunk, d: Chunk)
    requires c.id != d.id && |Block(c)| == 515 && |Block(d)| == 515
    ensures Taken(Costs(FallbackCount, [c, d]), 2, 256) == [0, 1] && Total(FallbackCount, [c, d]) == 256
    ensures FallbackCount(Join(Blocks([c, d]), "\n\n")) == 258
  {
    var costs := Costs(FallbackCount, [c, d]);
    assert costs == [128, 128];
    PickBoth(costs);
    SumIsTotal(FallbackCount, [c, d], [0, 1]);
    assert At([c, d], [0, 1]) == [c, d];
    JoinTwo(Block(c), Block(d));
    assert Blocks([c, d]) == [Block(c), Block(d)];
  }

  lemma PickBoth(costs: seq<nat>)
    requires costs == [128, 128]
    ensures Taken(costs, 2, 256) == [0, 1] && SumAt(costs, [0, 1]) == 256
  {
    SumSnoc(costs, [], 0);
    assert [] + [0] == [0];
    SumSnoc(costs, [0], 1);
    assert [0] + [1] == [0, 1];
  }

  lemma JoinTwo(a: string, b: string)
    ensures |Join([a, b], "\n\n")| == |a| + |b| + 2
  {
    assert Join([a, b], "\n\n") == a + "\n\n" + b;
  }
}
