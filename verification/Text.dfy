/** String operations the parser and the chunker are built from: whitespace splitting, stripping,
    joining, and the last-space split. */
module Text {
  /** The characters `str.split()` and `str.strip()` treat as whitespace. */
  predicate IsSpace(c: char) {
    c in "\t\n\r " || c == '\U{0B}' || c == '\U{0C}' || '\U{1C}' <= c <= '\U{1F}' || c == '\U{85}' || c == '\U{A0}'
    || c == '\U{1680}' || '\U{2000}' <= c <= '\U{200A}' || c == '\U{2028}' || c == '\U{2029}' || c == '\U{202F}'
    || c == '\U{205F}' || c == '\U{3000}'
  }

  predicate AllSpace(s: string) {
    forall i | 0 <= i < |s| :: IsSpace(s[i])
  }

  predicate NoSpace(s: string) {
    forall i | 0 <= i < |s| :: !IsSpace(s[i])
  }

  /** By their code points. */
  lemma SpacesAre(c: char)
    ensures IsSpace(c) <==>
            || 9 <= c as int <= 13 || 28 <= c as int <= 32 || 8192 <= c as int <= 8202
            || c as int in {133, 160, 5760, 8232, 8233, 8239, 8287, 12288}
  {
  }

  /** The words of `s`, with `word` read so far. */
  function Scan(s: string, word: string): seq<string>
    decreases |s|
  {
    if s == "" then if word == "" then [] else [word]
    else if IsSpace(s[0]) then (if word == "" then [] else [word]) + Scan(s[1..], "")
    else Scan(s[1..], word + [s[0]])
  }

  /** `s.split()`. */
  function Words(s: string): seq<string> {
    Scan(s, "")
  }

  function StripLeft(s: string): string
    decreases |s|
  {
    if s != "" && IsSpace(s[0]) then StripLeft(s[1..]) else s
  }

  function StripRight(s: string): string
    decreases |s|
  {
    if s != "" && IsSpace(s[|s| - 1]) then StripRight(s[..|s| - 1]) else s
  }

  /** `s.strip()`. */
  function Strip(s: string): string {
    StripRight(StripLeft(s))
  }

  /** `sep.join(parts)`. */
  function Join(parts: seq<string>, sep: string): string
    decreases |parts|
  {
    if parts == [] then "" else if |parts| == 1 then parts[0] else parts[0] + sep + Join(parts[1..], sep)
  }

  function Flatten<T>(parts: seq<seq<T>>): seq<T>
    decreases |parts|
  {
    if parts == [] then [] else parts[0] + Flatten(parts[1..])
  }

  /** `s.rsplit(" ", 1)[0]` for a string that contains a space. */
  function BeforeLastSpace(s: string): string
    requires ' ' in s
    decreases |s|
  {
    if s[|s| - 1] == ' ' then s[..|s| - 1] else BeforeLastSpace(s[..|s| - 1])
  }

  // ---------------------------------------------------------------- words

  predicate IsWord(w: string) {
    w != "" && NoSpace(w)
  }

  predicate AreWords(ws: seq<string>) {
    forall i | 0 <= i < |ws| :: IsWord(ws[i])
  }

  lemma {:induction false} ScanGivesWords(s: string, word: string)
    requires NoSpace(word)
    ensures AreWords(Scan(s, word))
    decreases |s|
  {
    if s != "" {
      if IsSpace(s[0]) { ScanGivesWords(s[1..], ""); } else { ScanGivesWords(s[1..], word + [s[0]]); }
    }
  }

  /** A whitespace character between two texts separates their words. */
  lemma {:induction false} ScanSplitsAt(a: string, c: char, b: string, word: string)
    requires IsSpace(c)
    ensures Scan(a + [c] + b, word) == Scan(a, word) + Words(b)
    decreases |a|
  {
    var s := a + [c] + b;
    if a == "" {
      assert s[0] == c && s[1..] == b;
    } else {
      assert s[0] == a[0] && s[1..] == a[1..] + [c] + b;
      if IsSpace(a[0]) { ScanSplitsAt(a[1..], c, b, ""); } else { ScanSplitsAt(a[1..], c, b, word + [a[0]]); }
    }
  }

  lemma {:induction false} SpaceHasNoWords(s: string)
    requires AllSpace(s)
    ensures Words(s) == []
    decreases |s|
  {
    if s != "" { SpaceHasNoWords(s[1..]); }
  }

  /** Any run of whitespace separates. */
  lemma WordsOfConcat(a: string, sep: string, b: string)
    requires sep != "" && AllSpace(sep)
    ensures Words(a + sep + b) == Words(a) + Words(b)
  {
    assert a + sep + b == a + [sep[0]] + (sep[1..] + b);
    ScanSplitsAt(a, sep[0], sep[1..] + b, "");
    LeadingSpace(sep[1..], b);
  }

  lemma {:induction false} LeadingSpace(sep: string, b: string)
    requires AllSpace(sep)
    ensures Words(sep + b) == Words(b)
    decreases |sep|
  {
    if sep == "" { assert sep + b == b; }
    else {
      assert (sep + b)[0] == sep[0] && (sep + b)[1..] == sep[1..] + b;
      LeadingSpace(sep[1..], b);
    }
  }

  lemma {:induction false} StripLeftKeepsWords(s: string)
    ensures Words(StripLeft(s)) == Words(s)
    decreases |s|
  {
    if s != "" && IsSpace(s[0]) { StripLeftKeepsWords(s[1..]); }
  }

  lemma {:induction false} StripRightKeepsWords(s: string)
    ensures Words(StripRight(s)) == Words(s)
    decreases |s|
  {
    if s != "" && IsSpace(s[|s| - 1]) {
      StripRightKeepsWords(s[..|s| - 1]);
      assert s == s[..|s| - 1] + [s[|s| - 1]] + "";
      WordsOfConcat(s[..|s| - 1], [s[|s| - 1]], "");
    }
  }

  lemma StripKeepsWords(s: string)
    ensures Words(Strip(s)) == Words(s) && |Strip(s)| <= |s|
  {
    StripLeftKeepsWords(s);
    StripRightKeepsWords(StripLeft(s));
    StripShrinks(s);
  }

  lemma StripShrinks(s: string)
    ensures |Strip(s)| <= |s|
  {
    StripLeftShrinks(s);
    StripRightShrinks(StripLeft(s));
  }

  lemma {:induction false} StripLeftShrinks(s: string)
    ensures |StripLeft(s)| <= |s|
    decreases |s|
  {
    if s != "" && IsSpace(s[0]) { StripLeftShrinks(s[1..]); }
  }

  lemma {:induction false} StripRightShrinks(s: string)
    ensures |StripRight(s)| <= |s|
    decreases |s|
  {
    if s != "" && IsSpace(s[|s| - 1]) { StripRightShrinks(s[..|s| - 1]); }
  }

  lemma {:induction false} StripLeftIs(s: string) returns (i: nat)
    ensures i <= |s| && StripLeft(s) == s[i..] && AllSpace(s[..i]) && (i < |s| ==> !IsSpace(s[i]))
    decreases |s|
  {
    i := 0;
    if s != "" && IsSpace(s[0]) {
      i := StripLeftIs(s[1..]);
      i := i + 1;
    }
  }

  lemma {:induction false} StripRightIs(s: string) returns (j: nat)
    ensures j <= |s| && StripRight(s) == s[..j] && AllSpace(s[j..]) && (0 < j ==> !IsSpace(s[j - 1]))
    decreases |s|
  {
    j := |s|;
    if s != "" && IsSpace(s[|s| - 1]) {
      j := StripRightIs(s[..|s| - 1]);
      assert forall k | j <= k < |s| - 1 :: s[..|s| - 1][j..][k - j] == s[k];
    }
  }

  /** Stripping takes blanks away at both ends, and all of them. */
  lemma StripIs(s: string) returns (i: nat, j: nat)
    ensures i <= j <= |s| && Strip(s) == s[i..j] && AllSpace(s[..i]) && AllSpace(s[j..])
    ensures i < j ==> !IsSpace(s[i]) && !IsSpace(s[j - 1])
  {
    i := StripLeftIs(s);
    j := StripRightIs(s[i..]);
    j := i + j;
    assert s[i..][..j - i] == s[i..j] && s[i..][j - i..] == s[j..];
  }

  // ---------------------------------------------------------------- joining

  lemma {:induction false} ScanWord(w: string, word: string)
    requires NoSpace(w) && word + w != ""
    ensures Scan(w, word) == [word + w]
    decreases |w|
  {
    if w == "" { assert word + w == word; }
    else {
      assert word + w == (word + [w[0]]) + w[1..];
      ScanWord(w[1..], word + [w[0]]);
    }
  }

  /** Splitting undoes joining. */
  lemma {:induction false} WordsOfJoin(ws: seq<string>)
    requires AreWords(ws)
    ensures Words(Join(ws, " ")) == ws
    decreases |ws|
  {
    if |ws| == 1 {
      assert "" + ws[0] == ws[0];
      ScanWord(ws[0], "");
    } else if ws != [] {
      WordsOfConcat(ws[0], " ", Join(ws[1..], " "));
      assert "" + ws[0] == ws[0];
      ScanWord(ws[0], "");
      WordsOfJoin(ws[1..]);
    }
  }

  lemma {:induction false} JoinConcat(a: seq<string>, b: seq<string>, sep: string)
    requires a != [] && b != []
    ensures Join(a + b, sep) == Join(a, sep) + sep + Join(b, sep)
    decreases |a|
  {
    if |a| == 1 {
      assert (a + b)[1..] == b;
    } else {
      assert (a + b)[1..] == a[1..] + b;
      JoinConcat(a[1..], b, sep);
      assert a[0] + sep + (Join(a[1..], sep) + sep + Join(b, sep)) ==
             (a[0] + sep + Join(a[1..], sep)) + sep + Join(b, sep);
    }
  }

  function TotalLength(ws: seq<string>): nat
    decreases |ws|
  {
    if ws == [] then 0 else |ws[0]| + TotalLength(ws[1..])
  }

  lemma {:induction false} JoinLength(ws: seq<string>, sep: string)
    ensures |Join(ws, sep)| == TotalLength(ws) + (if ws == [] then 0 else (|ws| - 1) * |sep|)
    decreases |ws|
  {
    if |ws| > 1 {
      JoinLength(ws[1..], sep);
      assert (|ws| - 1) * |sep| == (|ws[1..]| - 1) * |sep| + |sep|;
    } else if |ws| == 1 {
      assert TotalLength(ws[1..]) == 0;
    }
  }

  lemma {:induction false} LastSpaceBefore(a: string, w: string)
    requires NoSpace(w)
    ensures BeforeLastSpace(a + " " + w) == a
    decreases |w|
  {
    var s := a + " " + w;
    assert s[|a|] == ' ';
    if w == "" {
      assert s[..|s| - 1] == a;
    } else {
      var front := a + " " + w[..|w| - 1];
      assert s[..|s| - 1] == front && s[|s| - 1] == w[|w| - 1];
      assert IsSpace(' ');
      LastSpaceBefore(a, w[..|w| - 1]);
    }
  }

  /** Cutting a joined text at its last space drops exactly its last word. */
  lemma DropsLastWord(ws: seq<string>)
    requires AreWords(ws) && |ws| >= 2
    ensures ' ' in Join(ws, " ") && BeforeLastSpace(Join(ws, " ")) == Join(ws[..|ws| - 1], " ")
  {
    var a, w := JoinSnoc(ws);
    assert IsWord(w);
    LastWordGoes(a, w);
  }

  lemma JoinSnoc(ws: seq<string>) returns (a: string, w: string)
    requires |ws| >= 2
    ensures a == Join(ws[..|ws| - 1], " ") && w == ws[|ws| - 1] && Join(ws, " ") == a + " " + w
  {
    var front, last := ws[..|ws| - 1], ws[|ws| - 1];
    a, w := Join(front, " "), last;
    JoinConcat(front, [last], " ");
    assert ws == front + [last];
  }

  lemma LastWordGoes(a: string, w: string)
    requires IsWord(w)
    ensures ' ' in a + " " + w && BeforeLastSpace(a + " " + w) == a
  {
    assert (a + " " + w)[|a|] == ' ';
    LastSpaceBefore(a, w);
  }

  /** A joined text contains a space exactly if it has two words or more. */
  lemma SpaceIffTwoWords(ws: seq<string>)
    requires AreWords(ws) && ws != []
    ensures ' ' in Join(ws, " ") <==> |ws| >= 2
  {
    if |ws| >= 2 { DropsLastWord(ws); }
    else {
      assert IsWord(ws[0]);
      assert IsSpace(' ');
    }
  }

  lemma {:induction false} FlattenConcat<T>(a: seq<seq<T>>, b: seq<seq<T>>)
    ensures Flatten(a + b) == Flatten(a) + Flatten(b)
    decreases |a|
  {
    if a == [] { assert a + b == b; }
    else {
      assert (a + b)[1..] == a[1..] + b;
      FlattenConcat(a[1..], b);
    }
  }
}
