/** Overlapping word windows trimmed to the token cap, and exactly which words they keep. */
module Windows {
  import opened Wrappers
  import opened Text

  const TARGET_TOKENS: nat := 512
  const MAX_TOKENS: nat := 1024
  const MIN_TOKENS: nat := 50
  const WINDOW_WORDS: nat := 384  // int(512 * 0.75)
  const STEP_WORDS: nat := 336    // int((512 - 64) * 0.75)

  type Counter = string -> nat

  /** The counter used without a tokenizer: four characters a token, at least one. */
  function FallbackCount(s: string): nat {
    if |s| / 4 > 1 then |s| / 4 else 1
  }

  lemma FallbackIs(s: string)
    ensures FallbackCount(s) >= 1 && (|s| < 8 ==> FallbackCount(s) == 1)
    ensures |s| >= 4 ==> 4 * FallbackCount(s) <= |s| < 4 * FallbackCount(s) + 4
  {
  }

  /** How many words of a window survive the trimming. */
  function Kept(count: Counter, ws: seq<string>): nat
    decreases |ws|
  {
    if |ws| <= 1 || count(Join(ws, " ")) <= MAX_TOKENS then |ws| else Kept(count, ws[..|ws| - 1])
  }

  function WindowAt(ws: seq<string>, i: nat): seq<string>
    requires i <= |ws|
  {
    ws[i..Min(i + WINDOW_WORDS, |ws|)]
  }

  /** The words of the piece that starts at word `i`. */
  function PieceAt(count: Counter, ws: seq<string>, i: nat): seq<string>
    requires i <= |ws|
  {
    KeptFits(count, WindowAt(ws, i));
    WindowAt(ws, i)[..Kept(count, WindowAt(ws, i))]
  }

  /** The pieces from word `i` on. */
  function PiecesFrom(count: Counter, ws: seq<string>, i: nat): seq<seq<string>>
    decreases |ws| - i
  {
    if i >= |ws| then [] else [PieceAt(count, ws, i)] + PiecesFrom(count, ws, i + STEP_WORDS)
  }

  function Rendered(pieces: seq<seq<string>>): seq<string> {
    seq(|pieces|, k requires 0 <= k < |pieces| => Join(pieces[k], " "))
  }

  lemma {:induction false} KeptFits(count: Counter, ws: seq<string>)
    ensures Kept(count, ws) <= |ws| && (ws != [] ==> 1 <= Kept(count, ws))
    decreases |ws|
  {
    if |ws| > 1 && count(Join(ws, " ")) > MAX_TOKENS { KeptFits(count, ws[..|ws| - 1]); }
  }

  /** A piece is the longest prefix of its window within the cap, or a single word. */
  lemma {:induction false} KeptIsLongest(count: Counter, ws: seq<string>)
    requires ws != []
    ensures var k := Kept(count, ws);
            && 1 <= k <= |ws|
            && (k == 1 || count(Join(ws[..k], " ")) <= MAX_TOKENS)
            && (forall j | k < j <= |ws| :: count(Join(ws[..j], " ")) > MAX_TOKENS)
    decreases |ws|
  {
    if |ws| > 1 && count(Join(ws, " ")) > MAX_TOKENS {
      var front := ws[..|ws| - 1];
      KeptIsLongest(count, front);
      forall j | 0 <= j <= |front| ensures ws[..j] == front[..j] { }
      assert ws[..|ws|] == ws;
    } else {
      assert ws[..|ws|] == ws;
    }
  }

  lemma PiecesStep(count: Counter, ws: seq<string>, i: nat, done: seq<seq<string>>)
    requires i < |ws|
    ensures done + PiecesFrom(count, ws, i) == (done + [PieceAt(count, ws, i)]) + PiecesFrom(count, ws, i + STEP_WORDS)
    ensures Rendered(done + [PieceAt(count, ws, i)]) == Rendered(done) + [Join(PieceAt(count, ws, i), " ")]
  {
    assert PiecesFrom(count, ws, i) == [PieceAt(count, ws, i)] + PiecesFrom(count, ws, i + STEP_WORDS);
  }

  /** `_split_tokens`: the loop over the words, with its inner trimming loop over the text. */
  method SplitTokens(count: Counter, text: string) returns (chunks: seq<string>)
    ensures chunks == Rendered(PiecesFrom(count, Words(text), 0))
  {
    var words := Words(text);
    ScanGivesWords(text, "");
    chunks := [];
    if words == [] { return; }
    var i := 0;
    ghost var done: seq<seq<string>> := [];
    while i < |words|
      invariant 0 <= i && chunks == Rendered(done)
      invariant PiecesFrom(count, words, 0) == done + PiecesFrom(count, words, i)
      decreases |words| - i
    {
      var piece := Trimmed(count, WindowAt(words, i));
      PiecesStep(count, words, i, done);
      chunks := chunks + [piece];
      done := done + [PieceAt(count, words, i)];
      i := i + STEP_WORDS;
    }
  }

  /** The trimming loop: cut at the last space while the text is over the cap and has one. */
  method Trimmed(count: Counter, ws: seq<string>) returns (piece: string)
    requires AreWords(ws) && ws != []
    ensures Kept(count, ws) <= |ws| && piece == Join(ws[..Kept(count, ws)], " ")
  {
    KeptFits(count, ws);
    piece := Join(ws, " ");
    ghost var front := ws;
    while count(piece) > MAX_TOKENS && ' ' in piece
      invariant front != [] && front <= ws && piece == Join(front, " ")
      invariant Kept(count, front) == Kept(count, ws)
      decreases |front|
    {
      SpaceIffTwoWords(front);
      DropsLastWord(front);
      piece := BeforeLastSpace(piece);
      front := front[..|front| - 1];
    }
    SpaceIffTwoWords(front);
    assert ws[..|front|] == front;
  }

  /** A piece of the words from number `i` on: the longest start of the next 384 within 1024 tokens, or one word. */
  predicate IsPieceAt(count: Counter, ws: seq<string>, i: nat, piece: seq<string>)
    requires i < |ws|
  {
    var window := if i + 384 <= |ws| then ws[i..i + 384] else ws[i..];
    && 1 <= |piece| <= |window| && piece == window[..|piece|]
    && (|piece| == 1 || count(Join(piece, " ")) <= 1024)
    && forall n | |piece| < n <= |window| :: count(Join(window[..n], " ")) > 1024
  }

  lemma PieceIsAt(count: Counter, ws: seq<string>, i: nat) returns (piece: seq<string>)
    requires i < |ws|
    ensures piece == PieceAt(count, ws, i) && IsPieceAt(count, ws, i, piece)
  {
    var window := WindowAt(ws, i);
    assert window == if i + 384 <= |ws| then ws[i..i + 384] else ws[i..];
    KeptIsLongest(count, window);
    piece := PieceAt(count, ws, i);
    assert piece == window[..|piece|];
  }

  lemma PiecesCons(count: Counter, ws: seq<string>, i: nat)
    returns (pieces: seq<seq<string>>, piece: seq<string>, rest: seq<seq<string>>)
    requires i < |ws|
    ensures pieces == PiecesFrom(count, ws, i) && rest == PiecesFrom(count, ws, i + 336) && pieces == [piece] + rest
    ensures IsPieceAt(count, ws, i, piece)
  {
    piece := PieceIsAt(count, ws, i);
    pieces, rest := PiecesFrom(count, ws, i), PiecesFrom(count, ws, i + 336);
  }

  /** There is one piece for every 336 words begun, and each is cut from where it begins. */
  lemma {:induction false} PiecesAreWindows(count: Counter, ws: seq<string>, i: nat, k: nat)
    returns (pieces: seq<seq<string>>)
    ensures pieces == PiecesFrom(count, ws, i) && (k < |pieces| <==> i + 336 * k < |ws|)
    ensures k < |pieces| ==> IsPieceAt(count, ws, i + 336 * k, pieces[k])
    decreases k
  {
    if i >= |ws| { pieces := []; }
    else {
      var piece, rest;
      pieces, piece, rest := PiecesCons(count, ws, i);
      if k > 0 {
        var same := PiecesAreWindows(count, ws, i + 336, k - 1);
        assert k < |pieces| ==> pieces[k] == rest[k - 1];
      }
    }
  }

  // ---------------------------------------------------------------- which words survive

  /** The part of every piece before the next window starts. */
  function Heads(pieces: seq<seq<string>>): seq<string>
    decreases |pieces|
  {
    if pieces == [] then [] else pieces[0][..Min(STEP_WORDS, |pieces[0]|)] + Heads(pieces[1..])
  }

  /** No window from word `i` on is trimmed below the distance to the next one. */
  predicate Untrimmed(count: Counter, ws: seq<string>, i: nat)
    decreases |ws| - i
  {
    i >= |ws| || (|PieceAt(count, ws, i)| >= Min(STEP_WORDS, |ws| - i) && Untrimmed(count, ws, i + STEP_WORDS))
  }

  /** Joining the heads of the pieces gives the words back exactly when no window is trimmed below
      the step. */
  lemma {:induction false} HeadsRebuild(count: Counter, ws: seq<string>, i: nat)
    requires i <= |ws|
    ensures |Heads(PiecesFrom(count, ws, i))| <= |ws| - i
    ensures Heads(PiecesFrom(count, ws, i)) == ws[i..] <==> Untrimmed(count, ws, i)
    decreases |ws| - i
  {
    if i < |ws| {
      var head := HeadAt(count, ws, i);
      var next := i + STEP_WORDS;
      if next <= |ws| {
        HeadsRebuild(count, ws, next);
        HeadAndRest(ws, i, head, Heads(PiecesFrom(count, ws, next)));
      } else {
        assert PiecesFrom(count, ws, next) == [];
        assert head + [] == head;
      }
    }
  }

  lemma HeadAt(count: Counter, ws: seq<string>, i: nat) returns (head: seq<string>)
    requires i < |ws|
    ensures var piece := PieceAt(count, ws, i); |piece| <= |ws| - i && head == piece[..Min(STEP_WORDS, |piece|)]
    ensures |head| <= |ws| - i && head == ws[i..i + |head|]
  {
    KeptFits(count, WindowAt(ws, i));
    var piece := PieceAt(count, ws, i);
    head := piece[..Min(STEP_WORDS, |piece|)];
    SliceOfSlice(ws, i, |WindowAt(ws, i)|, |piece|);
    SliceOfSlice(ws, i, |piece|, |head|);
  }

  lemma SliceOfSlice(ws: seq<string>, i: nat, m: nat, n: nat)
    requires n <= m && i + m <= |ws|
    ensures ws[i..i + m][..n] == ws[i..i + n]
  {
  }

  lemma HeadAndRest(ws: seq<string>, i: nat, head: seq<string>, rest: seq<string>)
    requires i + STEP_WORDS <= |ws| && |head| <= STEP_WORDS && head == ws[i..i + |head|]
    requires |rest| <= |ws| - i - STEP_WORDS
    ensures head + rest == ws[i..] <==> |head| == STEP_WORDS && rest == ws[i + STEP_WORDS..]
  {
    var next := i + STEP_WORDS;
    assert ws[i..] == ws[i..next] + ws[next..];
    if |head| == STEP_WORDS {
      assert (head + rest)[STEP_WORDS..] == rest && ws[i..][STEP_WORDS..] == ws[next..];
    } else {
      assert |head + rest| < |ws[i..]|;
    }
  }

  /** Some piece holds the word at position `p`. */
  ghost predicate Survives(count: Counter, ws: seq<string>, p: nat)
    requires p < |ws|
  {
    exists w: nat {:trigger PieceAt(count, ws, w * STEP_WORDS)} ::
      w * STEP_WORDS <= p < w * STEP_WORDS + |PieceAt(count, ws, w * STEP_WORDS)|
  }

  /** The window a word belongs to, counted by its step. */
  function Own(p: nat): nat {
    p / STEP_WORDS
  }

  /** With any counter: a word survives exactly if its own window or the overlap of the one before
      reaches it. */
  lemma SurvivesIff(count: Counter, ws: seq<string>, p: nat)
    requires p < |ws|
    ensures Survives(count, ws, p) <==>
            || p < Own(p) * STEP_WORDS + |PieceAt(count, ws, Own(p) * STEP_WORDS)|
            || (Own(p) > 0 && p < (Own(p) - 1) * STEP_WORDS + |PieceAt(count, ws, (Own(p) - 1) * STEP_WORDS)|)
  {
    var own := Own(p);
    assert own * STEP_WORDS <= p < (own + 1) * STEP_WORDS;
    if Survives(count, ws, p) {
      var w: nat :| w * STEP_WORDS <= p < w * STEP_WORDS + |PieceAt(count, ws, w * STEP_WORDS)|;
      KeptFits(count, WindowAt(ws, w * STEP_WORDS));
      assert |PieceAt(count, ws, w * STEP_WORDS)| <= WINDOW_WORDS;
      assert w <= own;
      assert w + 2 > own;
    }
  }

  /** A counter that never gives a part more tokens than the whole. */
  ghost predicate Monotone(count: Counter) {
    forall whole: string, i: nat, j: nat | i <= j <= |whole| :: count(whole[i..j]) <= count(whole)
  }

  lemma FallbackIsMonotone()
    ensures Monotone(FallbackCount)
  {
    forall whole: string, i: nat, j: nat | i <= j <= |whole|
      ensures FallbackCount(whole[i..j]) <= FallbackCount(whole)
    {
      assert |whole[i..j]| <= |whole|;
    }
  }

  /** A run of words inside a joined text is a part of it. */
  lemma JoinOfPart(ws: seq<string>, i: nat, j: nat)
    requires i < j <= |ws|
    ensures exists a: nat, b: nat :: a <= b <= |Join(ws, " ")| && Join(ws, " ")[a..b] == Join(ws[i..j], " ")
  {
    var part := Join(ws[i..j], " ");
    var upTo := Join(ws[..j], " ");
    var a: nat := 0;
    if i > 0 {
      assert ws[..j] == ws[..i] + ws[i..j];
      JoinConcat(ws[..i], ws[i..j], " ");
      a := |Join(ws[..i], " ")| + 1;
    } else {
      assert ws[..j] == ws[i..j];
    }
    assert upTo[a..|upTo|] == part;
    if j < |ws| {
      assert ws == ws[..j] + ws[j..];
      JoinConcat(ws[..j], ws[j..], " ");
      assert Join(ws, " ")[..|upTo|] == upTo;
    } else {
      assert ws[..j] == ws;
    }
    assert Join(ws, " ")[a..|upTo|] == part;
  }

  lemma PartCounts(count: Counter, ws: seq<string>, i: nat, j: nat)
    requires i < j <= |ws| && Monotone(count)
    ensures count(Join(ws[i..j], " ")) <= count(Join(ws, " "))
  {
    JoinOfPart(ws, i, j);
    var a: nat, b: nat :| a <= b <= |Join(ws, " ")| && Join(ws, " ")[a..b] == Join(ws[i..j], " ");
  }

  /** The overlap cannot hold more words of a window than the window itself keeps. */
  lemma OverlapKeepsNoMore(count: Counter, ws: seq<string>, before: nat, i: nat)
    requires i < |ws| && before + STEP_WORDS == i && Monotone(count)
    ensures before + |PieceAt(count, ws, before)| <= i + |PieceAt(count, ws, i)|
  {
    KeptIsLongest(count, WindowAt(ws, i));
    KeptIsLongest(count, WindowAt(ws, before));
    var long := PieceAt(count, ws, before);
    assert long == WindowAt(ws, before)[..|long|];
    if |long| > STEP_WORDS {
      var n := |long| - STEP_WORDS;
      SliceOfSlice(ws, before, |WindowAt(ws, before)|, |long|);
      assert long[STEP_WORDS..|long|] == ws[i..i + n];
      SliceOfSlice(ws, i, |WindowAt(ws, i)|, n);
      PartCounts(count, long, STEP_WORDS, |long|);
    }
  }

  /** With a monotone counter the overlap never rescues a word: the words lost are exactly those
      between the end of a trimmed piece and the start of the next window. */
  lemma LostAreTrimmedGaps(count: Counter, ws: seq<string>, p: nat)
    requires p < |ws| && Monotone(count)
    ensures Survives(count, ws, p) <==> p < Own(p) * STEP_WORDS + |PieceAt(count, ws, Own(p) * STEP_WORDS)|
  {
    SurvivesIff(count, ws, p);
    if Own(p) > 0 {
      OverlapKeepsNoMore(count, ws, (Own(p) - 1) * STEP_WORDS, Own(p) * STEP_WORDS);
    }
  }

  // ---------------------------------------------------------------- the fallback counter

  predicate AtMost(ws: seq<string>, n: nat) {
    forall i | 0 <= i < |ws| :: |ws[i]| <= n
  }

  lemma {:induction false} LengthAtMost(ws: seq<string>, n: nat)
    requires AtMost(ws, n)
    ensures TotalLength(ws) <= |ws| * n
    decreases |ws|
  {
    if ws != [] {
      LengthAtMost(ws[1..], n);
      assert |ws| * n == |ws[1..]| * n + n;
    }
  }

  lemma {:induction false} LengthAtLeast(ws: seq<string>, n: nat)
    requires AtLeast(ws, n)
    ensures TotalLength(ws) >= |ws| * n
    decreases |ws|
  {
    if ws != [] {
      LengthAtLeast(ws[1..], n);
      assert |ws| * n == |ws[1..]| * n + n;
    }
  }

  /** A window of words of at most eleven characters keeps at least a step of them. */
  lemma ShortWordsKeepStep(ws: seq<string>)
    requires AtMost(ws, 11) && ws != []
    ensures Kept(FallbackCount, ws) >= Min(STEP_WORDS, |ws|)
  {
    var k := Kept(FallbackCount, ws);
    KeptIsLongest(FallbackCount, ws);
    var m := Min(STEP_WORDS, |ws|);
    JoinLength(ws[..m], " ");
    LengthAtMost(ws[..m], 11);
    assert |Join(ws[..m], " ")| <= m * 11 + m - 1;
    assert FallbackCount(Join(ws[..m], " ")) <= MAX_TOKENS;
  }

  /** With the fallback counter no word is lost if every word has at most eleven characters. */
  lemma {:induction false} ShortWordsAllSurvive(ws: seq<string>, i: nat)
    requires AtMost(ws, 11)
    ensures Untrimmed(FallbackCount, ws, i)
    decreases |ws| - i
  {
    if i < |ws| {
      KeptFits(FallbackCount, WindowAt(ws, i));
      ShortWordsKeepStep(WindowAt(ws, i));
      ShortWordsAllSurvive(ws, i + STEP_WORDS);
    }
  }

  predicate AtLeast(ws: seq<string>, n: nat) {
    forall i | 0 <= i < |ws| :: |ws[i]| >= n
  }

  lemma LongWordsKeepLess(ws: seq<string>)
    requires AtLeast(ws, 12) && ws != []
    ensures Kept(FallbackCount, ws) < STEP_WORDS
  {
    var k := Kept(FallbackCount, ws);
    KeptIsLongest(FallbackCount, ws);
    JoinLength(ws[..k], " ");
    assert AtLeast(ws[..k], 12);
    LengthAtLeast(ws[..k], 12);
    assert |Join(ws[..k], " ")| >= k * 12 + k - 1;
  }

  /** Eleven is the limit: a text of words of twelve characters or more that fills a step loses
      the last word before the next window. */
  lemma TwelveCharactersLose(ws: seq<string>)
    requires |ws| >= STEP_WORDS && AtLeast(ws, 12)
    ensures !Survives(FallbackCount, ws, STEP_WORDS - 1)
  {
    FallbackIsMonotone();
    LostAreTrimmedGaps(FallbackCount, ws, STEP_WORDS - 1);
    assert AtLeast(WindowAt(ws, 0), 12);
    LongWordsKeepLess(WindowAt(ws, 0));
  }
}
