/** Verbatim evidence: the check that a quotation comes from its source.

    Normalisation and noise removal act on each character by itself: a function
    from a character to the characters that stay of it, none for white space and
    punctuation.  `words` are the connector words. */
module Evidence {
  import opened Text

  datatype Norm = Norm(keep: char -> string, digit: char -> bool, words: set<string>)

  // ---- noise ----------------------------------------------------------

  function StripNoise(n: Norm, s: string): string {
    if s == "" then "" else StripNoise(n, s[..|s| - 1]) + n.keep(s[|s| - 1])
  }

  lemma {:induction false} NoiseJoins(n: Norm, s: string, t: string)
    ensures StripNoise(n, s + t) == StripNoise(n, s) + StripNoise(n, t)
  {
    if t == "" {
      assert s + t == s;
    } else {
      assert (s + t)[..|s + t| - 1] == s + t[..|t| - 1];
      NoiseJoins(n, s, t[..|t| - 1]);
    }
  }

  /** The connector words of the source. */
  function ConnectorWords(): set<string> {
    {"以及", "同时", "另外", "并且", "还有", "然后", "而且", "再", "及"}
  }

  predicate IsDelimiter(c: char) {
    c == '\n' || c == '。' || c == '！' || c == '？' || c == '；' || c == ';' || c == '!' || c == '?'
  }

  predicate ClosesQuote(c: char) {
    c == '”' || c == '"' || c == '’' || c == '\''
  }

  predicate OpensQuote(c: char) {
    c == '“' || c == '"' || c == '‘' || c == '\''
  }

  predicate IsNoise(c: char) {
    IsSpace(c) || IsDelimiter(c) || ClosesQuote(c) || OpensQuote(c)
  }

  predicate Drops(n: Norm, c: char) {
    IsNoise(c) ==> n.keep(c) == ""
  }

  /** What the check needs of the characters: white space, sentence ends and
      quotes are noise; connector words are one or two characters and no noise. */
  ghost predicate GoodNorm(n: Norm) {
    && (forall c :: Drops(n, c))
    && (forall w | w in n.words :: StripNoise(n, w) == w && GoodWord(w))
  }

  predicate GoodWord(w: string) {
    1 <= |w| <= 2 && forall i | 0 <= i < |w| :: !IsNoise(w[i])
  }

  predicate AllDigits(n: Norm, s: string) {
    s != "" && forall i | 0 <= i < |s| :: n.digit(s[i])
  }

  /** Nothing, a number, or a connector word: ignored between quotations. */
  predicate IsConnector(n: Norm, clean: string) {
    clean == "" || AllDigits(n, clean) || clean in n.words
  }

  // ---- stitched quotes ------------------------------------------------

  /** The longest connector word at a position, none when there is none. */
  function ConnectorAt(n: Norm, s: string, i: nat): (w: string)
    requires i <= |s|
    ensures w == "" || (w in n.words && i + |w| <= |s| && s[i..i + |w|] == w)
  {
    if i + 2 <= |s| && s[i..i + 2] in n.words then s[i..i + 2]
    else if i + 1 <= |s| && s[i..i + 1] in n.words then s[i..i + 1]
    else ""
  }

  /** A closing quote, a connector word and an opening quote, white space aside:
      the word is at `at`, and the match goes up to `end`. */
  datatype Stitch = NoStitch | Stitch(at: nat, word: string, end: nat)

  /** The match at the start of a text. */
  function StitchAt(n: Norm, s: string): (m: Stitch)
    ensures m.Stitch? ==> IsMatch(n, s, m)
  {
    if s == "" || !ClosesQuote(s[0]) then NoStitch
    else
      var j := Lead(s, 1);
      var w := ConnectorAt(n, s, j);
      if w == "" then NoStitch
      else
        var k := Lead(s, j + |w|);
        if k < |s| && OpensQuote(s[k]) then Stitch(j, w, k + 1) else NoStitch
  }

  predicate Blank(s: string, i: nat, j: nat) {
    i <= j <= |s| && forall k | i <= k < j :: IsSpace(s[k])
  }

  predicate IsMatch(n: Norm, s: string, m: Stitch) {
    && m.Stitch? && m.word in n.words && 1 <= m.at <= m.at + |m.word| < m.end <= |s|
    && s[m.at..m.at + |m.word|] == m.word && ClosesQuote(s[0]) && OpensQuote(s[m.end - 1])
    && Blank(s, 1, m.at) && Blank(s, m.at + |m.word|, m.end - 1)
  }

  lemma LeadIs(s: string, i: nat, j: nat)
    requires Blank(s, i, j) && j < |s| && !IsSpace(s[j])
    ensures Lead(s, i) == j
  {
  }

  lemma ConnectorIs(n: Norm, s: string, i: nat, w: string)
    requires GoodNorm(n) && w in n.words && i + |w| < |s| && s[i..i + |w|] == w && IsNoise(s[i + |w|])
    ensures ConnectorAt(n, s, i) == w
  {
    assert GoodWord(w);
    if |w| == 1 {
      assert s[i..i + 2][1] == s[i + 1];
      assert !GoodWord(s[i..i + 2]);
    }
  }

  lemma MatchEdges(n: Norm, s: string, m: Stitch)
    requires GoodNorm(n) && IsMatch(n, s, m)
    ensures !IsSpace(s[m.at]) && !IsSpace(s[m.end - 1]) && IsNoise(s[m.at + |m.word|])
  {
    assert GoodWord(m.word) && s[m.at] == m.word[0];
  }

  /** There is one way to match at a place. */
  lemma MatchIsStitch(n: Norm, s: string, m: Stitch)
    requires GoodNorm(n) && IsMatch(n, s, m)
    ensures StitchAt(n, s) == m
  {
    MatchEdges(n, s, m);
    LeadIs(s, 1, m.at);
    ConnectorIs(n, s, m.at, m.word);
    LeadIs(s, m.at + |m.word|, m.end - 1);
  }

  lemma SameSlice(a: string, b: string, e: nat, i: nat, j: nat)
    requires i <= j <= e <= |a| && e <= |b| && a[..e] == b[..e]
    ensures a[i..j] == b[i..j]
  {
    assert a[i..j] == a[..e][i..j] && b[i..j] == b[..e][i..j];
  }

  lemma MatchMoves(n: Norm, a: string, b: string, m: Stitch)
    requires IsMatch(n, a, m) && m.end <= |b| && a[..m.end] == b[..m.end]
    ensures IsMatch(n, b, m)
  {
    SameSlice(a, b, m.end, m.at, m.at + |m.word|);
    forall k | 0 <= k < m.end ensures a[k] == b[k] {
      assert a[..m.end][k] == b[..m.end][k];
    }
  }

  /** A match depends on its own characters only. */
  lemma StitchIsLocal(n: Norm, text: string, rest: string, m: Stitch)
    requires GoodNorm(n) && m.Stitch? && m.end == |text|
    ensures StitchAt(n, text + rest) == m <==> StitchAt(n, text) == m
  {
    assert (text + rest)[..|text|] == text[..|text|];
    if StitchAt(n, text + rest) == m {
      MatchMoves(n, text + rest, text, m);
      MatchIsStitch(n, text, m);
    } else if StitchAt(n, text) == m {
      MatchMoves(n, text, text + rest, m);
      MatchIsStitch(n, text + rest, m);
    }
  }

  lemma {:induction false} BlankCleans(n: Norm, s: string)
    requires GoodNorm(n) && forall i | 0 <= i < |s| :: IsSpace(s[i])
    ensures StripNoise(n, s) == ""
  {
    if s != "" {
      assert Drops(n, s[|s| - 1]);
      BlankCleans(n, s[..|s| - 1]);
    }
  }

  lemma CharNoise(n: Norm, c: char)
    requires GoodNorm(n)
    ensures StripNoise(n, [c]) == n.keep(c) && (IsNoise(c) ==> StripNoise(n, [c]) == "")
  {
    assert Drops(n, c);
    assert [c][..0] == "";
  }

  lemma NoiseAround(n: Norm, a: string, w: string, b: string)
    requires StripNoise(n, a) == "" && StripNoise(n, b) == ""
    ensures StripNoise(n, a + w + b) == StripNoise(n, w)
  {
    NoiseJoins(n, a + w, b);
    NoiseJoins(n, a, w);
  }

  lemma MatchParts(n: Norm, s: string, m: Stitch)
    requires IsMatch(n, s, m)
    ensures s[..m.end] == [s[0]] + s[1..m.at] + m.word + (s[m.at + |m.word|..m.end - 1] + [s[m.end - 1]])
  {
  }

  /** What a match covers cleans to its connector word. */
  lemma StitchCleans(n: Norm, s: string, m: Stitch)
    requires GoodNorm(n) && IsMatch(n, s, m)
    ensures StripNoise(n, s[..m.end]) == m.word
  {
    var a, b := s[1..m.at], s[m.at + |m.word|..m.end - 1];
    BlankCleans(n, a);
    BlankCleans(n, b);
    CharNoise(n, s[0]);
    CharNoise(n, s[m.end - 1]);
    NoiseJoins(n, [s[0]], a);
    NoiseJoins(n, b, [s[m.end - 1]]);
    NoiseAround(n, [s[0]] + a, m.word, b + [s[m.end - 1]]);
    MatchParts(n, s, m);
  }

  // ---- fragments ------------------------------------------------------

  /** The evidence with a full stop for every stitch. */
  function Substituted(n: Norm, s: string): string
    decreases |s|
  {
    var m := StitchAt(n, s);
    if s == "" then "" else if m.Stitch? then "。" + Substituted(n, s[m.end..]) else [s[0]] + Substituted(n, s[1..])
  }

  function FirstEnd(s: string, i: nat): (k: nat)
    requires i <= |s|
    ensures i <= k <= |s| && (k < |s| ==> IsDelimiter(s[k])) && forall j | i <= j < k :: !IsDelimiter(s[j])
    decreases |s| - i
  {
    if i < |s| && !IsDelimiter(s[i]) then FirstEnd(s, i + 1) else i
  }

  function SplitAtEnds(s: string): seq<string>
    decreases |s|
  {
    var k := FirstEnd(s, 0);
    if k == |s| then [s] else [s[..k]] + SplitAtEnds(s[k + 1..])
  }

  /** Where the source splits at runs of sentence ends, there is an empty fragment
      more between the ends of a run; empty fragments count for nothing. */
  function Fragments(n: Norm, evidence: string): seq<string> {
    SplitAtEnds(Substituted(n, evidence))
  }

  /** A fragment that has to be found in the source. */
  predicate IsReal(n: Norm, fragment: string) {
    Strip(fragment) != "" && !IsConnector(n, StripNoise(n, fragment))
  }

  /** A real fragment that, cleaned, is a contiguous piece of the cleaned source. */
  predicate IsFound(n: Norm, fragment: string, cleanContent: string) {
    var clean := StripNoise(n, Strip(fragment));
    clean != "" && Contains(cleanContent, clean)
  }

  /** `_evidence_in_source`. */
  predicate InSource(n: Norm, evidence: string, content: string) {
    var fragments := Fragments(n, evidence);
    && (exists f | f in fragments :: IsReal(n, f))
    && (forall f | f in fragments && IsReal(n, f) :: IsFound(n, f, StripNoise(n, content)))
  }

  lemma EdgesClean(n: Norm, s: string)
    requires GoodNorm(n)
    ensures
      var i := Lead(s, 0);
      StripNoise(n, s[..i]) == "" && StripNoise(n, s[Trail(s, i, |s|)..]) == ""
  {
    var i := Lead(s, 0);
    BlankCleans(n, s[..i]);
    BlankCleans(n, s[Trail(s, i, |s|)..]);
  }

  lemma StripCleansAlike(n: Norm, s: string)
    requires GoodNorm(n)
    ensures StripNoise(n, Strip(s)) == StripNoise(n, s)
    ensures Strip(s) == "" ==> StripNoise(n, s) == ""
  {
    var i := Lead(s, 0);
    var j := Trail(s, i, |s|);
    EdgesClean(n, s);
    NoiseAround(n, s[..i], s[i..j], s[j..]);
    Edges(s, i, j);
  }

  lemma Edges(s: string, i: nat, j: nat)
    requires i <= j <= |s|
    ensures s == s[..i] + s[i..j] + s[j..]
  {
  }

  // ---- evidence as quotations and what is between them ----------------

  /** A quotation, a sentence end, or a stitch with its connector word. */
  datatype Piece = Quoted(text: string) | Break(c: char) | Link(text: string, word: string)

  function Raw(p: Piece): string {
    match p
    case Quoted(text) => text
    case Break(c) => [c]
    case Link(text, _) => text
  }

  function Assembled(pieces: seq<Piece>): string {
    if pieces == [] then "" else Raw(pieces[0]) + Assembled(pieces[1..])
  }

  /** The text is to be cut where it starts. */
  predicate CutsHere(n: Norm, s: string) {
    s != "" && (IsDelimiter(s[0]) || StitchAt(n, s).Stitch?)
  }

  predicate CutsAt(n: Norm, s: string, i: nat)
    requires i <= |s|
  {
    CutsHere(n, s[i..])
  }

  predicate IsCut(n: Norm, p: Piece) {
    match p
    case Quoted(_) => false
    case Break(c) => IsDelimiter(c)
    case Link(text, word) => StitchAt(n, text).Stitch? && StitchAt(n, text).word == word && StitchAt(n, text).end == |text|
  }

  /** Nowhere inside `text` is there a place to cut when `rest` follows. */
  predicate Whole(n: Norm, text: string, rest: string) {
    forall i | 0 <= i < |text| :: !CutsAt(n, text + rest, i)
  }

  /** Quotations with a sentence end or a stitch between each two of them. */
  predicate Alternates(n: Norm, pieces: seq<Piece>) {
    && pieces != [] && pieces[0].Quoted?
    && Whole(n, pieces[0].text, Assembled(pieces[1..]))
    && (|pieces| == 1 || (IsCut(n, pieces[1]) && Alternates(n, pieces[2..])))
  }

  function QuotedTexts(pieces: seq<Piece>): seq<string> {
    if pieces == [] then []
    else if pieces[0].Quoted? then [pieces[0].text] + QuotedTexts(pieces[1..])
    else QuotedTexts(pieces[1..])
  }

  function FirstCut(n: Norm, s: string, i: nat): (k: nat)
    requires i <= |s|
    ensures i <= k <= |s| && (k < |s| ==> CutsAt(n, s, k)) && forall j | i <= j < k :: !CutsAt(n, s, j)
    decreases |s| - i
  {
    if i < |s| && !CutsAt(n, s, i) then FirstCut(n, s, i + 1) else i
  }

  function CutPiece(n: Norm, s: string): (p: Piece)
    requires CutsHere(n, s)
    ensures Raw(p) != "" && Raw(p) <= s
  {
    var m := StitchAt(n, s);
    if m.Stitch? then Link(s[..m.end], m.word) else Break(s[0])
  }

  /** The first quotation, what cuts it off, and the text behind. */
  datatype Head = Head(text: string, cut: Piece, tail: string)

  function HeadOf(n: Norm, s: string, k: nat): (h: Head)
    requires k < |s| && CutsAt(n, s, k)
    ensures |h.tail| < |s|
  {
    var cut := CutPiece(n, s[k..]);
    Head(s[..k], cut, s[k + |Raw(cut)|..])
  }

  function PiecesOf(n: Norm, s: string): (pieces: seq<Piece>)
    ensures pieces != [] && pieces[0].Quoted?
    decreases |s|
  {
    var k := FirstCut(n, s, 0);
    if k == |s| then [Quoted(s)]
    else
      var h := HeadOf(n, s, k);
      [Quoted(h.text), h.cut] + PiecesOf(n, h.tail)
  }

  lemma FirstCutIs(n: Norm, s: string, k: nat)
    requires k <= |s| && (k < |s| ==> CutsAt(n, s, k)) && forall j | 0 <= j < k :: !CutsAt(n, s, j)
    ensures FirstCut(n, s, 0) == k
  {
    assert FirstCut(n, s, 0) <= k;
  }

  lemma OnePiece(n: Norm, s: string)
    requires FirstCut(n, s, 0) == |s|
    ensures PiecesOf(n, s) == [Quoted(s)]
  {
  }

  lemma PiecesStep(n: Norm, s: string, h: Head)
    requires FirstCut(n, s, 0) < |s| && h == HeadOf(n, s, FirstCut(n, s, 0))
    ensures PiecesOf(n, s) == [Quoted(h.text), h.cut] + PiecesOf(n, h.tail)
  {
  }

  lemma AssembledThree(q: Piece, cut: Piece, rest: seq<Piece>)
    ensures Assembled([q]) == Raw(q)
    ensures Assembled([q, cut] + rest) == Raw(q) + Assembled([cut] + rest)
    ensures Assembled([cut] + rest) == Raw(cut) + Assembled(rest)
  {
    assert ([q, cut] + rest)[1..] == [cut] + rest && ([cut] + rest)[1..] == rest;
    assert [q][1..] == [] && Raw(q) + "" == Raw(q);
  }

  lemma CutIsCut(n: Norm, s: string)
    requires GoodNorm(n) && CutsHere(n, s)
    ensures IsCut(n, CutPiece(n, s))
  {
    var m := StitchAt(n, s);
    if m.Stitch? {
      assert s[..m.end] + s[m.end..] == s;
      StitchIsLocal(n, s[..m.end], s[m.end..], m);
    }
  }

  lemma CutRoundTrip(n: Norm, cut: Piece, rest: string)
    requires GoodNorm(n) && IsCut(n, cut)
    ensures CutsHere(n, Raw(cut) + rest) && CutPiece(n, Raw(cut) + rest) == cut
  {
    if cut.Link? {
      StitchIsLocal(n, cut.text, rest, StitchAt(n, cut.text));
      assert (cut.text + rest)[..|cut.text|] == cut.text;
    }
  }

  lemma HeadAndTail(s: string, k: nat, raw: string)
    requires k <= |s| && raw <= s[k..]
    ensures k + |raw| <= |s| && s == s[..k] + (raw + s[k + |raw|..])
  {
  }

  lemma UncutIsWhole(n: Norm, s: string, text: string, rest: string)
    requires s == text + rest && FirstCut(n, s, 0) == |text|
    ensures Whole(n, text, rest)
  {
  }

  lemma HeadParts(n: Norm, s: string, h: Head)
    requires GoodNorm(n) && FirstCut(n, s, 0) < |s| && h == HeadOf(n, s, FirstCut(n, s, 0))
    ensures s == h.text + (Raw(h.cut) + h.tail) && IsCut(n, h.cut) && Whole(n, h.text, Raw(h.cut) + h.tail)
  {
    var k := FirstCut(n, s, 0);
    CutIsCut(n, s[k..]);
    HeadAndTail(s, k, Raw(h.cut));
    UncutIsWhole(n, s, h.text, Raw(h.cut) + h.tail);
  }

  lemma AlternatesMore(n: Norm, text: string, cut: Piece, rest: seq<Piece>)
    requires IsCut(n, cut) && Alternates(n, rest) && Whole(n, text, Raw(cut) + Assembled(rest))
    ensures
      var pieces := [Quoted(text), cut] + rest;
      Alternates(n, pieces) && Assembled(pieces) == text + (Raw(cut) + Assembled(rest))
  {
    var pieces := [Quoted(text), cut] + rest;
    assert pieces[1..] == [cut] + rest && pieces[2..] == rest;
    AssembledThree(Quoted(text), cut, rest);
  }

  lemma AlternatesOne(n: Norm, text: string)
    requires Whole(n, text, "")
    ensures Alternates(n, [Quoted(text)]) && Assembled([Quoted(text)]) == text
  {
    AssembledThree(Quoted(text), Quoted(text), []);
    assert [Quoted(text)][1..] == [];
  }

  /** Cutting evidence up loses nothing and leaves no place to cut. */
  lemma {:induction false} PiecesAlternate(n: Norm, s: string)
    requires GoodNorm(n)
    ensures Assembled(PiecesOf(n, s)) == s && Alternates(n, PiecesOf(n, s))
    decreases |s|
  {
    if FirstCut(n, s, 0) == |s| {
      OnePiece(n, s);
      assert s + "" == s;
      UncutIsWhole(n, s, s, "");
      AlternatesOne(n, s);
    } else {
      var h := HeadOf(n, s, FirstCut(n, s, 0));
      PiecesStep(n, s, h);
      HeadParts(n, s, h);
      PiecesAlternate(n, h.tail);
      AlternatesMore(n, h.text, h.cut, PiecesOf(n, h.tail));
    }
  }

  lemma CutIsFirst(n: Norm, text: string, rest: string)
    requires CutsHere(n, rest) && Whole(n, text, rest)
    ensures FirstCut(n, text + rest, 0) == |text|
  {
    assert (text + rest)[|text|..] == rest;
    FirstCutIs(n, text + rest, |text|);
  }

  lemma WholeThenCut(n: Norm, text: string, cut: Piece, tail: string)
    requires GoodNorm(n) && IsCut(n, cut) && Whole(n, text, Raw(cut) + tail)
    ensures PiecesOf(n, text + (Raw(cut) + tail)) == [Quoted(text), cut] + PiecesOf(n, tail)
  {
    var s := text + (Raw(cut) + tail);
    CutRoundTrip(n, cut, tail);
    CutIsFirst(n, text, Raw(cut) + tail);
    ThreeSlices(text, Raw(cut), tail);
    PiecesStep(n, s, Head(text, cut, tail));
  }

  lemma ThreeSlices(a: string, b: string, c: string)
    ensures
      var s := a + (b + c);
      s[..|a|] == a && s[|a|..] == b + c && s[|a| + |b|..] == c && (b + c)[|b|..] == c
  {
  }

  /** There is one way to cut evidence up. */
  lemma {:induction false} PiecesAreUnique(n: Norm, pieces: seq<Piece>)
    requires GoodNorm(n) && Alternates(n, pieces)
    ensures PiecesOf(n, Assembled(pieces)) == pieces
    decreases |pieces|
  {
    var q := pieces[0];
    if |pieces| == 1 {
      assert pieces == [q];
      AssembledThree(q, q, []);
      assert Assembled(pieces[1..]) == "" && q.text + "" == q.text;
      FirstCutIs(n, q.text, |q.text|);
    } else {
      var cut, rest := pieces[1], pieces[2..];
      assert pieces == [q, cut] + rest && pieces[1..] == [cut] + rest;
      AssembledThree(q, cut, rest);
      PiecesAreUnique(n, rest);
      WholeThenCut(n, q.text, cut, Assembled(rest));
    }
  }

  // ---- fragments are the quotations -----------------------------------

  lemma SubstitutedSkip(n: Norm, s: string)
    requires s != "" && !CutsHere(n, s)
    ensures Substituted(n, s) == [s[0]] + Substituted(n, s[1..])
  {
  }

  lemma WholeTail(n: Norm, text: string, rest: string)
    requires text != "" && Whole(n, text, rest)
    ensures !CutsHere(n, text + rest) && (text + rest)[1..] == text[1..] + rest && Whole(n, text[1..], rest)
  {
    var s := text + rest;
    assert !CutsAt(n, s, 0) && s[0..] == s && s[1..] == text[1..] + rest;
    forall i | 0 <= i < |text[1..]| ensures !CutsAt(n, text[1..] + rest, i) {
      assert !CutsAt(n, s, i + 1) && s[1..][i..] == s[i + 1..];
    }
  }

  lemma OneByOne(text: string, more: string)
    ensures text == "" ==> text + more == more
    ensures text != "" ==> [text[0]] + (text[1..] + more) == text + more
  {
  }

  lemma {:induction false} SubstitutedWhole(n: Norm, text: string, rest: string)
    requires Whole(n, text, rest)
    ensures Substituted(n, text + rest) == text + Substituted(n, rest)
    decreases |text|
  {
    OneByOne(text, rest);
    OneByOne(text, Substituted(n, rest));
    if text != "" {
      WholeTail(n, text, rest);
      SubstitutedSkip(n, text + rest);
      SubstitutedWhole(n, text[1..], rest);
    }
  }

  lemma EndIsFirst(s: string, k: nat)
    requires k < |s| && IsDelimiter(s[k]) && forall j | 0 <= j < k :: !IsDelimiter(s[j])
    ensures FirstEnd(s, 0) == k
  {
  }

  lemma SplitsAtEnd(a: string, c: char, b: string)
    requires NoDelimiter(a) && IsDelimiter(c)
    ensures SplitAtEnds(a + ([c] + b)) == [a] + SplitAtEnds(b)
  {
    ThreeSlices(a, [c], b);
    EndIsFirst(a + ([c] + b), |a|);
  }

  lemma SubstitutedCut(n: Norm, s: string)
    requires CutsHere(n, s)
    ensures Substituted(n, s) == [if StitchAt(n, s).Stitch? then '。' else s[0]] + Substituted(n, s[|Raw(CutPiece(n, s))|..])
  {
  }

  lemma WholeHasNoDelimiter(n: Norm, text: string, rest: string)
    requires Whole(n, text, rest)
    ensures NoDelimiter(text)
  {
    forall i | 0 <= i < |text| ensures !IsDelimiter(text[i]) {
      assert !CutsAt(n, text + rest, i) && (text + rest)[i..][0] == text[i];
    }
  }

  lemma SplitOne(s: string)
    requires NoDelimiter(s)
    ensures SplitAtEnds(s) == [s]
  {
  }

  lemma OneFragment(n: Norm, s: string)
    requires FirstCut(n, s, 0) == |s|
    ensures Fragments(n, s) == [s] && NoDelimiter(s)
  {
    assert s + "" == s;
    UncutIsWhole(n, s, s, "");
    SubstitutedWhole(n, s, "");
    WholeHasNoDelimiter(n, s, "");
    SplitOne(s);
  }

  lemma FirstFragment(n: Norm, text: string, rest: string)
    requires Whole(n, text, rest) && CutsHere(n, rest)
    ensures NoDelimiter(text)
    ensures Fragments(n, text + rest) == [text] + Fragments(n, rest[|Raw(CutPiece(n, rest))|..])
  {
    SubstitutedWhole(n, text, rest);
    WholeHasNoDelimiter(n, text, rest);
    SubstitutedCut(n, rest);
    var tail := Substituted(n, rest[|Raw(CutPiece(n, rest))|..]);
    SplitsAtEnd(text, if StitchAt(n, rest).Stitch? then '。' else rest[0], tail);
  }

  lemma FragmentsStep(n: Norm, s: string, h: Head)
    requires FirstCut(n, s, 0) < |s| && h == HeadOf(n, s, FirstCut(n, s, 0))
    ensures NoDelimiter(h.text) && Fragments(n, s) == [h.text] + Fragments(n, h.tail)
  {
    var rest := s[|h.text|..];
    assert s == h.text + rest && rest[|Raw(h.cut)|..] == h.tail;
    UncutIsWhole(n, s, h.text, rest);
    FirstFragment(n, h.text, rest);
  }

  /** The fragments of the source are the quotations, in order. */
  lemma {:induction false} FragmentsAreQuoted(n: Norm, s: string)
    ensures Fragments(n, s) == QuotedTexts(PiecesOf(n, s))
    decreases |s|
  {
    if FirstCut(n, s, 0) == |s| {
      OneFragment(n, s);
      OnePiece(n, s);
      assert [Quoted(s)][1..] == [];
    } else {
      var h := HeadOf(n, s, FirstCut(n, s, 0));
      FragmentsStep(n, s, h);
      PiecesStep(n, s, h);
      FragmentsAreQuoted(n, h.tail);
      QuotedAfterCut(Quoted(h.text), h.cut, PiecesOf(n, h.tail));
    }
  }

  lemma QuotedAfterCut(q: Piece, cut: Piece, rest: seq<Piece>)
    requires q.Quoted? && !cut.Quoted?
    ensures QuotedTexts([q, cut] + rest) == [q.text] + QuotedTexts(rest)
  {
    assert ([q, cut] + rest)[1..] == [cut] + rest && ([cut] + rest)[1..] == rest;
  }

  lemma {:induction false} QuotedTextsAre(pieces: seq<Piece>, f: string)
    ensures f in QuotedTexts(pieces) <==> Quoted(f) in pieces
  {
    if pieces != [] {
      QuotedTextsAre(pieces[1..], f);
      assert pieces == [pieces[0]] + pieces[1..];
    }
  }

  // ---- what is accepted -----------------------------------------------

  /** Ignored between quotations, or a contiguous piece of the cleaned source. */
  predicate Verbatim(n: Norm, text: string, content: string) {
    IsConnector(n, StripNoise(n, text)) || Contains(StripNoise(n, content), StripNoise(n, text))
  }

  lemma RealOrIgnored(n: Norm, f: string, content: string)
    requires GoodNorm(n)
    ensures IsReal(n, f) <==> !IsConnector(n, StripNoise(n, f))
    ensures Verbatim(n, f, content) <==> (IsReal(n, f) ==> IsFound(n, f, StripNoise(n, content)))
  {
    StripCleansAlike(n, f);
  }

  /** Evidence is accepted exactly when its quotations, the texts between its
      sentence ends and stitches, are each verbatim or ignored, and not all are
      ignored: in whatever way it was put together from such pieces. */
  lemma AcceptedIsVerbatim(n: Norm, pieces: seq<Piece>, content: string)
    requires GoodNorm(n) && Alternates(n, pieces)
    ensures InSource(n, Assembled(pieces), content) <==>
            && (forall p | p in pieces && p.Quoted? :: Verbatim(n, p.text, content))
            && (exists p | p in pieces && p.Quoted? :: !IsConnector(n, StripNoise(n, p.text)))
  {
    var fragments := Fragments(n, Assembled(pieces));
    PiecesAreUnique(n, pieces);
    FragmentsAreQuoted(n, Assembled(pieces));
    forall f ensures f in fragments <==> Quoted(f) in pieces {
      QuotedTextsAre(pieces, f);
    }
    forall f ensures IsReal(n, f) <==> !IsConnector(n, StripNoise(n, f)) {
      RealOrIgnored(n, f, content);
    }
    forall f ensures Verbatim(n, f, content) <==> (IsReal(n, f) ==> IsFound(n, f, StripNoise(n, content))) {
      RealOrIgnored(n, f, content);
    }
    forall p | p in pieces && p.Quoted? ensures p.text in fragments {
      assert p == Quoted(p.text);
    }
  }

  /** What is left of a piece when the evidence is cleaned. */
  function Cleaned(n: Norm, p: Piece): string {
    match p
    case Quoted(text) => StripNoise(n, text)
    case Break(_) => ""
    case Link(_, word) => word
  }

  function AllCleaned(n: Norm, pieces: seq<Piece>): string {
    if pieces == [] then "" else Cleaned(n, pieces[0]) + AllCleaned(n, pieces[1..])
  }

  lemma PieceCleans(n: Norm, p: Piece)
    requires GoodNorm(n) && (p.Quoted? || IsCut(n, p))
    ensures StripNoise(n, Raw(p)) == Cleaned(n, p)
    ensures p.Link? ==> p.word in n.words
  {
    if p.Break? {
      CharNoise(n, p.c);
    } else if p.Link? {
      StitchCleans(n, p.text, StitchAt(n, p.text));
      assert p.text[..|p.text|] == p.text;
    }
  }

  /** Cleaned evidence is its cleaned quotations with connector words between. */
  lemma {:induction false} PiecesCleanAlike(n: Norm, pieces: seq<Piece>)
    requires GoodNorm(n) && forall p | p in pieces :: p.Quoted? || IsCut(n, p)
    ensures StripNoise(n, Assembled(pieces)) == AllCleaned(n, pieces)
  {
    if pieces != [] {
      PieceCleans(n, pieces[0]);
      assert pieces[0] in pieces && forall p | p in pieces[1..] :: p in pieces;
      PiecesCleanAlike(n, pieces[1..]);
      NoiseJoins(n, Raw(pieces[0]), Assembled(pieces[1..]));
    }
  }

  lemma {:induction false} AlternatingPieces(n: Norm, pieces: seq<Piece>)
    requires Alternates(n, pieces)
    ensures forall p | p in pieces :: p.Quoted? || IsCut(n, p)
    decreases |pieces|
  {
    if |pieces| > 1 {
      AlternatingPieces(n, pieces[2..]);
      assert pieces == [pieces[0], pieces[1]] + pieces[2..];
    }
  }

  /** Any evidence is such pieces, its quotations are the fragments that the check
      looks at, and accepted evidence, cleaned, is nothing but contiguous pieces of
      the cleaned source and connectors, in order. */
  lemma EveryEvidenceIsPieces(n: Norm, evidence: string, content: string) returns (pieces: seq<Piece>)
    requires GoodNorm(n)
    ensures Alternates(n, pieces) && Assembled(pieces) == evidence && QuotedTexts(pieces) == Fragments(n, evidence)
    ensures StripNoise(n, evidence) == AllCleaned(n, pieces)
    ensures forall p | p in pieces && p.Link? :: p.word in n.words
    ensures InSource(n, evidence, content) ==> forall p | p in pieces && p.Quoted? :: Verbatim(n, p.text, content)
  {
    pieces := PiecesOf(n, evidence);
    PiecesAlternate(n, evidence);
    FragmentsAreQuoted(n, evidence);
    AlternatingPieces(n, pieces);
    PiecesCleanAlike(n, pieces);
    forall p | p in pieces && p.Link? ensures p.word in n.words {
      PieceCleans(n, p);
    }
    AcceptedIsVerbatim(n, pieces, content);
  }

  // ---- ways to put evidence together ----------------------------------

  predicate NoDelimiter(s: string) {
    forall i | 0 <= i < |s| :: !IsDelimiter(s[i])
  }

  /** A quotation as it stands between typographic marks, or without any. */
  predicate Plain(s: string) {
    forall i | 0 <= i < |s| :: !IsDelimiter(s[i]) && !ClosesQuote(s[i])
  }

  lemma PlainIsWhole(n: Norm, text: string, rest: string)
    requires Plain(text)
    ensures Whole(n, text, rest)
  {
    forall i | 0 <= i < |text| ensures !CutsAt(n, text + rest, i) {
      assert (text + rest)[i..][0] == text[i];
    }
  }

  /** A closing quote ends its quotation when no connector word follows it. */
  lemma ClosedIsWhole(n: Norm, text: string, close: char, rest: string)
    requires GoodNorm(n) && Plain(text) && !IsDelimiter(close)
    requires rest == "" || (IsDelimiter(rest[0]) && !IsSpace(rest[0]))
    ensures Whole(n, text + [close], rest)
  {
    var s := text + [close] + rest;
    forall i | 0 <= i < |text + [close]| ensures !CutsAt(n, s, i) {
      if i < |text| {
        assert s[i..][0] == text[i];
      } else {
        assert s[i..] == [close] + rest;
        NoWordBehind(n, close, rest);
      }
    }
  }

  lemma NoWordBehind(n: Norm, close: char, rest: string)
    requires GoodNorm(n) && !IsDelimiter(close)
    requires rest == "" || (IsDelimiter(rest[0]) && !IsSpace(rest[0]))
    ensures !CutsHere(n, [close] + rest)
  {
  }

  /** Two quotations and what is between them. */
  lemma TwoQuoted(n: Norm, a: string, cut: Piece, b: string, content: string)
    requires GoodNorm(n) && IsCut(n, cut) && Whole(n, a, Raw(cut) + b) && Whole(n, b, "")
    ensures InSource(n, a + (Raw(cut) + b), content) <==>
            && Verbatim(n, a, content) && Verbatim(n, b, content)
            && (!IsConnector(n, StripNoise(n, a)) || !IsConnector(n, StripNoise(n, b)))
  {
    var pieces := [Quoted(a), cut] + [Quoted(b)];
    AlternatesOne(n, b);
    AlternatesMore(n, a, cut, [Quoted(b)]);
    AcceptedIsVerbatim(n, pieces, content);
    assert pieces[0] in pieces && pieces[2] in pieces && pieces[0] == Quoted(a) && pieces[2] == Quoted(b);
  }

  /** Two stretches of the source in quotes, with a stitch between: they are
      accepted unless both are ignored.  The first opening mark is a typographic
      one; the others may be straight. */
  lemma StitchedQuotesAreAccepted(n: Norm, mark: char, a: string, link: Piece, b: string, close: char, content: string)
    requires GoodNorm(n) && Plain(a) && Plain(b) && link.Link? && IsCut(n, link)
    requires OpensQuote(mark) && !ClosesQuote(mark) && ClosesQuote(close)
    requires Contains(content, a) && Contains(content, b)
    ensures InSource(n, ([mark] + a) + (link.text + (b + [close])), content) <==>
            !IsConnector(n, StripNoise(n, a)) || !IsConnector(n, StripNoise(n, b))
  {
    var first, second := [mark] + a, b + [close];
    MarksClean(n, mark, a, content);
    MarksClean(n, close, b, content);
    PlainIsWhole(n, first, link.text + second);
    ClosedIsWhole(n, b, close, "");
    TwoQuoted(n, first, link, second, content);
  }

  lemma MarksClean(n: Norm, mark: char, a: string, content: string)
    requires GoodNorm(n) && IsNoise(mark) && Contains(content, a)
    ensures StripNoise(n, [mark] + a) == StripNoise(n, a) == StripNoise(n, a + [mark])
    ensures Verbatim(n, [mark] + a, content) && Verbatim(n, a + [mark], content)
  {
    CharNoise(n, mark);
    NoiseJoins(n, [mark], a);
    NoiseJoins(n, a, [mark]);
    CleanContains(n, content, a);
  }

  /** What is a stitch: a closing mark, a connector word and an opening mark, with
      any white space between. */
  lemma StitchIsCut(n: Norm, close: char, gap: string, word: string, space: string, open: char)
    requires GoodNorm(n) && word in n.words && ClosesQuote(close) && OpensQuote(open)
    requires Blank(gap, 0, |gap|) && Blank(space, 0, |space|)
    ensures IsCut(n, Link([close] + gap + word + space + [open], word))
  {
    var s := [close] + gap + word + space + [open];
    var at := 1 + |gap|;
    assert GoodWord(word) && s[at..at + |word|] == word;
    MatchIsStitch(n, s, Stitch(at, word, |s|));
  }

  predicate IsRun(s: string, f: string) {
    NoDelimiter(f) && Contains(s, f)
  }

  lemma HeadIsRun(s: string, k: nat)
    requires k <= |s| && NoDelimiter(s[..k])
    ensures IsRun(s, s[..k])
  {
    ContainsMiddle("", s[..k], s[k..]);
    assert "" + s[..k] + s[k..] == s;
  }

  lemma RunInTail(s: string, k: nat, f: string)
    requires k <= |s| && IsRun(s[k..], f)
    ensures IsRun(s, f)
  {
    ContainsMiddle(s[..k], s[k..], "");
    assert s[..k] + s[k..] + "" == s;
    ContainsTransitive(s, s[k..], f);
  }

  lemma HeadIsSlices(n: Norm, s: string, k: nat, h: Head)
    requires k < |s| && CutsAt(n, s, k) && h == HeadOf(n, s, k)
    ensures |h.tail| <= |s| && h.text == s[..k] && h.tail == s[|s| - |h.tail|..]
  {
  }

  lemma LaterRun(n: Norm, s: string, h: Head, f: string)
    requires |h.tail| <= |s| && h.tail == s[|s| - |h.tail|..] && IsRun(h.tail, f)
    ensures IsRun(s, f)
  {
    RunInTail(s, |s| - |h.tail|, f);
  }

  /** A fragment is a run of the text without sentence ends. */
  lemma {:induction false} FragmentsAreRuns(n: Norm, s: string, f: string)
    requires f in Fragments(n, s)
    ensures IsRun(s, f)
    decreases |s|
  {
    var k := FirstCut(n, s, 0);
    if k == |s| {
      OneFragment(n, s);
      assert s[..|s|] == s;
      HeadIsRun(s, |s|);
    } else {
      var h := HeadOf(n, s, k);
      FragmentsStep(n, s, h);
      HeadIsSlices(n, s, k, h);
      if f == h.text {
        HeadIsRun(s, k);
      } else {
        FragmentsAreRuns(n, h.tail, f);
        LaterRun(n, s, h, f);
      }
    }
  }

  /** Pieces one after the other, a sentence end between them. */
  function Join(pieces: seq<string>, sep: char): string {
    if pieces == [] then ""
    else if |pieces| == 1 then pieces[0]
    else Join(pieces[..|pieces| - 1], sep) + [sep] + pieces[|pieces| - 1]
  }

  /** A run without sentence ends lies in one of the joined pieces. */
  lemma {:induction false} RunsLieInAPiece(pieces: seq<string>, sep: char, f: string) returns (k: nat)
    requires IsDelimiter(sep) && NoDelimiter(f) && f != "" && Contains(Join(pieces, sep), f)
    ensures k < |pieces| && Contains(pieces[k], f)
  {
    var s := Join(pieces, sep);
    var i :| 0 <= i <= |s| && OccursAt(s, f, i);
    assert pieces != [];
    if |pieces| == 1 {
      k := 0;
    } else {
      var front, last := pieces[..|pieces| - 1], pieces[|pieces| - 1];
      var a := Join(front, sep);
      assert s == a + [sep] + last && s[|a|] == sep;
      if i + |f| <= |a| {
        assert OccursAt(a, f, i);
        k := RunsLieInAPiece(front, sep, f);
      } else {
        assert s[i..i + |f|] == f && (i <= |a| ==> sep in f);
        assert OccursAt(last, f, i - |a| - 1);
        k := |pieces| - 1;
      }
    }
  }

  lemma CleanContains(n: Norm, s: string, t: string)
    requires Contains(s, t)
    ensures Contains(StripNoise(n, s), StripNoise(n, t))
  {
    var before, after := ContainsSplit(s, t);
    NoiseJoins(n, before + t, after);
    NoiseJoins(n, before, t);
    ContainsMiddle(StripNoise(n, before), StripNoise(n, t), StripNoise(n, after));
  }

  /** Any join of verbatim pieces of the source is accepted, exactly when it has
      a real fragment at all. */
  lemma JoinedQuotesAreAccepted(n: Norm, pieces: seq<string>, sep: char, content: string)
    requires GoodNorm(n) && IsDelimiter(sep) && forall k | 0 <= k < |pieces| :: Contains(content, pieces[k])
    ensures InSource(n, Join(pieces, sep), content) <==>
              exists f | f in Fragments(n, Join(pieces, sep)) :: IsReal(n, f)
  {
    var evidence := Join(pieces, sep);
    forall f | f in Fragments(n, evidence) && IsReal(n, f)
      ensures IsFound(n, f, StripNoise(n, content))
    {
      StripCleansAlike(n, f);
      FragmentsAreRuns(n, evidence, f);
      var k := RunsLieInAPiece(pieces, sep, f);
      ContainsTransitive(content, pieces[k], f);
      CleanContains(n, content, f);
    }
  }

  // ---- in the source's own characters ---------------------------------

  /** Sentence ends, and stitches around one of the nine connector words, cut
      evidence up. */
  lemma CutsOfTheSource(n: Norm, c: char, close: char, gap: string, word: string, space: string, open: char)
    requires GoodNorm(n) && n.words == {"以及", "同时", "另外", "并且", "还有", "然后", "而且", "再", "及"}
    requires Blank(gap, 0, |gap|) && Blank(space, 0, |space|)
    ensures IsCut(n, Break(c)) <==> c in {'\n', '。', '！', '？', '；', ';', '!', '?'}
    ensures close in {'”', '"', '’', '\''} && open in {'“', '"', '‘', '\''} && word in n.words ==>
              IsCut(n, Link([close] + gap + word + space + [open], word))
  {
    if close in {'”', '"', '’', '\''} && open in {'“', '"', '‘', '\''} && word in n.words {
      StitchIsCut(n, close, gap, word, space, open);
    }
  }

  /** Nothing at all, only digits, or a connector word is left of it. */
  predicate Filler(n: Norm, text: string) {
    var clean := StripNoise(n, text);
    || clean == ""
    || (forall i | 0 <= i < |clean| :: n.digit(clean[i]))
    || clean in {"以及", "同时", "另外", "并且", "还有", "然后", "而且", "再", "及"}
  }

  lemma FillerIsIgnored(n: Norm, text: string)
    requires n.words == {"以及", "同时", "另外", "并且", "还有", "然后", "而且", "再", "及"}
    ensures Filler(n, text) <==> IsConnector(n, StripNoise(n, text))
  {
  }

  /** Evidence put together from quotations and such cuts is accepted exactly when
      each quotation that is no filler is, cleaned, a contiguous piece of the
      cleaned source, and there is one. */
  lemma EvidenceIsJudged(n: Norm, pieces: seq<Piece>, content: string)
    requires GoodNorm(n) && n.words == {"以及", "同时", "另外", "并且", "还有", "然后", "而且", "再", "及"}
    requires Alternates(n, pieces)
    ensures InSource(n, Assembled(pieces), content) <==>
            && (forall p | p in pieces && p.Quoted? && !Filler(n, p.text) :: Contains(StripNoise(n, content), StripNoise(n, p.text)))
            && (exists p | p in pieces && p.Quoted? :: !Filler(n, p.text))
  {
    AcceptedIsVerbatim(n, pieces, content);
    forall p | p in pieces && p.Quoted?
      ensures Filler(n, p.text) <==> IsConnector(n, StripNoise(n, p.text))
    {
      FillerIsIgnored(n, p.text);
    }
  }

  // ---- a norm that meets the requirements -----------------------------

  function PlainNorm(digit: char -> bool): Norm {
    Norm(c => if IsNoise(c) then "" else [c], digit, ConnectorWords())
  }

  lemma {:induction false} PlainKeeps(digit: char -> bool, s: string)
    requires forall i | 0 <= i < |s| :: !IsNoise(s[i])
    ensures StripNoise(PlainNorm(digit), s) == s
  {
    if s != "" {
      PlainKeeps(digit, s[..|s| - 1]);
    }
  }

  /** Dropping white space, sentence ends and quotes is enough for the theorems
      above to apply with the source's connector words. */
  lemma PlainNormIsGood(digit: char -> bool)
    ensures GoodNorm(PlainNorm(digit))
    ensures PlainNorm(digit).words == {"以及", "同时", "另外", "并且", "还有", "然后", "而且", "再", "及"}
  {
    var n := PlainNorm(digit);
    forall c ensures Drops(n, c) {
    }
    forall w | w in n.words ensures StripNoise(n, w) == w && GoodWord(w) {
      PlainKeeps(digit, w);
    }
  }
}
