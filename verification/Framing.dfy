/** Newline framing of a JSONL log over bytes: UTF-8, the committed part of a
    file, and Python's `splitlines`. */
module Framing {
  import opened Text

  type Byte = b: nat | b < 256

  // ---- UTF-8 ----------------------------------------------------------

  function Utf8Char(c: char): seq<Byte> {
    var n := c as int;
    if n < 0x80 then [n]
    else if n < 0x800 then [0xC0 + n / 64, 0x80 + n % 64]
    else if n < 0x10000 then [0xE0 + n / 4096, 0x80 + n / 64 % 64, 0x80 + n % 64]
    else [0xF0 + n / 262144, 0x80 + n / 4096 % 64, 0x80 + n / 64 % 64, 0x80 + n % 64]
  }

  function Utf8(s: string): seq<Byte> {
    if s == "" then [] else Utf8(s[..|s| - 1]) + Utf8Char(s[|s| - 1])
  }

  /** How many bytes the character starting with this byte takes. */
  function Width(lead: Byte): nat {
    if lead < 0x80 then 1 else if lead < 0xE0 then 2 else if lead < 0xF0 then 3 else 4
  }

  function CharAt(b: seq<Byte>): int
    requires b != [] && |b| >= Width(b[0])
  {
    var w: int := b[0];
    if w < 0x80 then w
    else
      var x: int := b[1];
      if w < 0xE0 then (w - 0xC0) * 64 + (x - 0x80)
      else
        var y: int := b[2];
        if w < 0xF0 then (w - 0xE0) * 4096 + (x - 0x80) * 64 + (y - 0x80)
        else
          var z: int := b[3];
          (w - 0xF0) * 262144 + (x - 0x80) * 4096 + (y - 0x80) * 64 + (z - 0x80)
  }

  lemma CharIsRead(c: char)
    ensures var b := Utf8Char(c); |b| == Width(b[0]) && CharAt(b) == c as int
  {
    var n := c as int;
    assert n < 0x110000;
    Digits(n);
  }

  lemma Digits(n: int)
    requires 0 <= n
    ensures n == n / 64 * 64 + n % 64
    ensures n / 64 == n / 4096 * 64 + n / 64 % 64
    ensures n / 4096 == n / 262144 * 64 + n / 4096 % 64
  {
  }

  predicate Continues(b: Byte) {
    0x80 <= b <= 0xBF
  }

  /** The bytes of a character are those of section 3 of RFC 3629. */
  lemma CharsAreEncoded(c: char)
    ensures
      var n, b := c as int, Utf8Char(c);
      if n <= 0x7F then b == [n]
      else if n <= 0x7FF then
        |b| == 2 && 0xC2 <= b[0] <= 0xDF && Continues(b[1]) && n == (b[0] as int - 0xC0) * 64 + (b[1] as int - 0x80)
      else if n <= 0xFFFF then
        |b| == 3 && 0xE0 <= b[0] <= 0xEF && Continues(b[1]) && Continues(b[2])
        && n == (b[0] as int - 0xE0) * 4096 + (b[1] as int - 0x80) * 64 + (b[2] as int - 0x80)
      else
        |b| == 4 && 0xF0 <= b[0] <= 0xF4 && Continues(b[1]) && Continues(b[2]) && Continues(b[3])
        && n == (b[0] as int - 0xF0) * 262144 + (b[1] as int - 0x80) * 4096 + (b[2] as int - 0x80) * 64 + (b[3] as int - 0x80)
  {
    assert (c as int) < 0x110000;
    Digits(c as int);
  }

  lemma {:induction false} Utf8Joins(s: string, t: string)
    ensures Utf8(s + t) == Utf8(s) + Utf8(t)
  {
    if t == "" {
      assert s + t == s;
    } else {
      assert (s + t)[..|s + t| - 1] == s + t[..|t| - 1];
      Utf8Joins(s, t[..|t| - 1]);
    }
  }

  lemma Utf8Front(s: string)
    requires s != ""
    ensures Utf8(s) == Utf8Char(s[0]) + Utf8(s[1..])
  {
    assert s == [s[0]] + s[1..];
    Utf8Joins([s[0]], s[1..]);
    assert [s[0]][..0] == "";
    assert Utf8([s[0]]) == Utf8Char(s[0]);
  }

  predicate Scalar(n: int) {
    0 <= n < 0xD800 || 0xE000 <= n < 0x110000
  }

  /** Strict decoding: bytes that are not the encoding of a text are an error. */
  function Decode(b: seq<Byte>): Option<string>
    decreases |b|
  {
    if b == [] then Some("")
    else if |b| < Width(b[0]) then None
    else
      var n := CharAt(b);
      if !Scalar(n) || b[..Width(b[0])] != Utf8Char(n as char) then None
      else
        match Decode(b[Width(b[0])..])
        case None => None
        case Some(rest) => Some([n as char] + rest)
  }

  lemma DecodeFront(c: char, rest: seq<Byte>)
    ensures Decode(Utf8Char(c) + rest) == match Decode(rest) case None => None case Some(t) => Some([c] + t)
  {
    var b := Utf8Char(c) + rest;
    CharIsRead(c);
    var w := Width(b[0]);
    assert b[0] == Utf8Char(c)[0] && b[..w] == Utf8Char(c) && b[w..] == rest;
    CharAtFront(b, w);
  }

  lemma {:induction false} EncodedIsDecoded(s: string)
    ensures Decode(Utf8(s)) == Some(s)
    decreases |s|
  {
    if s != "" {
      Utf8Front(s);
      DecodeFront(s[0], Utf8(s[1..]));
      EncodedIsDecoded(s[1..]);
      assert s == [s[0]] + s[1..];
    }
  }

  lemma CharAtFront(b: seq<Byte>, w: nat)
    requires b != [] && w == Width(b[0]) <= |b|
    ensures CharAt(b[..w]) == CharAt(b)
  {
  }

  /** Bytes decode to a text exactly when they are its encoding. */
  lemma {:induction false} DecodingInvertsEncoding(b: seq<Byte>, s: string)
    ensures Decode(b) == Some(s) <==> b == Utf8(s)
    decreases |b|
  {
    EncodedIsDecoded(s);
    if Decode(b) == Some(s) && b != [] {
      var w := Width(b[0]);
      DecodingInvertsEncoding(b[w..], s[1..]);
      Utf8Front(s);
      assert b == b[..w] + b[w..];
    }
  }

  /** The newline byte stands for newlines only. */
  lemma {:induction false} NewlineByte(s: string)
    requires '\n' !in s
    ensures 10 !in Utf8(s)
  {
    if s != "" {
      assert '\n' !in s[..|s| - 1];
      NewlineByte(s[..|s| - 1]);
      var c := s[|s| - 1];
      assert c in s;
      assert c != 10 as char;
    }
  }

  // ---- lines ----------------------------------------------------------

  /** The line boundaries of `str.splitlines`. */
  predicate Breaks(c: char) {
    var n := c as int;
    10 <= n <= 13 || 0x1C <= n <= 0x1E || n == 0x85 || n == 0x2028 || n == 0x2029
  }

  function FirstBreak(s: string, i: nat): (r: nat)
    requires i <= |s|
    ensures i <= r <= |s| && (r < |s| ==> Breaks(s[r])) && (forall k | i <= k < r :: !Breaks(s[k]))
    decreases |s| - i
  {
    if i < |s| && !Breaks(s[i]) then FirstBreak(s, i + 1) else i
  }

  function SplitLines(s: string): seq<string>
    decreases |s|
  {
    var i := FirstBreak(s, 0);
    if s == "" then []
    else if i == |s| then [s]
    else [s[..i]] + SplitLines(s[PastBreak(s, i)..])
  }

  /** Where the line after the break at `i` starts: "\r\n" is one break. */
  function PastBreak(s: string, i: nat): (k: nat)
    requires i < |s|
    ensures i < k <= |s|
  {
    if s[i] == '\r' && i + 1 < |s| && s[i + 1] == '\n' then i + 2 else i + 1
  }

  /** What a JSON text without escapes beyond the required ones can hold: no
      control character below U+0020 (RFC 8259, section 7). */
  predicate JsonText(s: string) {
    forall i | 0 <= i < |s| :: s[i] as int >= 0x20
  }

  /** None of the line separators that JSON leaves unescaped. */
  predicate Clean(s: string) {
    forall i | 0 <= i < |s| :: !Breaks(s[i])
  }

  lemma JsonTextIsCleanBut(s: string)
    requires JsonText(s)
    ensures Clean(s) <==> '\U{85}' !in s && '\U{2028}' !in s && '\U{2029}' !in s
  {
    assert ('\U{85}' as int) == 0x85 && ('\U{2028}' as int) == 0x2028 && ('\U{2029}' as int) == 0x2029;
    if Clean(s) {
      assert Breaks('\U{85}') && Breaks('\U{2028}') && Breaks('\U{2029}');
    } else {
      var i :| 0 <= i < |s| && Breaks(s[i]);
      var n := s[i] as int;
      assert n == 0x85 || n == 0x2028 || n == 0x2029;
      assert s[i] == n as char;
    }
  }

  /** A text that ends in a line break, or is empty. */
  predicate Ended(s: string) {
    s == "" || Breaks(s[|s| - 1])
  }

  /** A text behind an ended one does not complete its last break. */
  predicate Follows(s: string, t: string) {
    Ended(s) && (s == "" || t == "" || s[|s| - 1] != '\r' || t[0] != '\n')
  }

  lemma SplitAtBreak(s: string, i: nat)
    requires i < |s| && Breaks(s[i]) && forall k | 0 <= k < i :: !Breaks(s[k])
    ensures SplitLines(s) == [s[..i]] + SplitLines(s[PastBreak(s, i)..])
  {
    FirstBreakIs(s, i);
  }

  /** A break is the same break when more follows. */
  lemma PastBreakStays(s: string, t: string, i: nat)
    requires i < |s| && Follows(s, t)
    ensures PastBreak(s + t, i) == PastBreak(s, i)
    ensures (s + t)[..i] == s[..i] && (s + t)[PastBreak(s, i)..] == s[PastBreak(s, i)..] + t
    ensures Follows(s[PastBreak(s, i)..], t)
  {
  }

  lemma SplitMovesOn(s: string, t: string, i: nat)
    requires i < |s| && Breaks(s[i]) && (forall k | 0 <= k < i :: !Breaks(s[k])) && Follows(s, t)
    ensures SplitLines(s + t) == [s[..i]] + SplitLines(s[PastBreak(s, i)..] + t)
  {
    PastBreakStays(s, t, i);
    assert forall k | 0 <= k < |s| :: (s + t)[k] == s[k];
    SplitAtBreak(s + t, i);
  }

  lemma Regroup(a: seq<string>, b: seq<string>, c: seq<string>)
    ensures a + (b + c) == a + b + c
  {
  }

  /** Python's line breaks; a carriage return and a newline are one. */
  predicate IsLineEnd(end: string) {
    end in {"\n", "\r", "\r\n", "\U{B}", "\U{C}", "\U{1C}", "\U{1D}", "\U{1E}", "\U{85}", "\U{2028}", "\U{2029}"}
  }

  /** A line up to its end, and what follows. */
  lemma LinesEnd(line: string, end: string, rest: string)
    requires Clean(line) && IsLineEnd(end) && (end == "\r" ==> rest == "" || rest[0] != '\n')
    ensures SplitLines(line + end + rest) == [line] + SplitLines(rest)
    ensures line != "" ==> SplitLines(line) == [line]
  {
    var s, i := line + end + rest, |line|;
    assert s[i] == end[0] && forall k | 0 <= k < i :: s[k] == line[k];
    SplitAtBreak(s, i);
    assert |end| == 2 ==> s[i + 1] == end[1];
    assert |end| == 1 && rest != "" ==> s[i + 1] == rest[0];
    assert s[..i] == line && s[i + |end|..] == rest;
  }

  /** What comes after a line break starts a new line. */
  lemma {:induction false} SplitJoins(s: string, t: string)
    requires Follows(s, t)
    ensures SplitLines(s + t) == SplitLines(s) + SplitLines(t)
    decreases |s|
  {
    if s == "" {
      assert s + t == t;
    } else {
      var i := FirstBreak(s, 0);
      assert Breaks(s[|s| - 1]);
      SplitMovesOn(s, t, i);
      SplitAtBreak(s, i);
      PastBreakStays(s, t, i);
      SplitJoins(s[PastBreak(s, i)..], t);
      Regroup([s[..i]], SplitLines(s[PastBreak(s, i)..]), SplitLines(t));
    }
  }

  lemma FirstBreakIs(s: string, i: nat)
    requires i < |s| && Breaks(s[i]) && forall k | 0 <= k < i :: !Breaks(s[k])
    ensures FirstBreak(s, 0) == i
  {
  }

  lemma SeparatorInside(t: string, i: nat)
    requires JsonText(t) && i < |t|
    ensures
      var s := t + "\n";
      s[i] == t[i] && s[..i] == t[..i] && PastBreak(s, i) == i + 1 && s[i + 1..] == t[i + 1..] + "\n"
  {
  }

  /** The first separator inside a text splits it there. */
  lemma SplitInside(t: string)
    requires JsonText(t) && !Clean(t)
    ensures
      var i := FirstBreak(t, 0);
      i < |t| && SplitLines(t + "\n") == [t[..i]] + SplitLines(t[i + 1..] + "\n")
  {
    var i := FirstBreak(t, 0);
    SeparatorInside(t, i);
    assert forall k | 0 <= k < i :: (t + "\n")[k] == t[k];
    SplitAtBreak(t + "\n", i);
  }

  /** A text is one line exactly when it holds no separator. */
  lemma LinesOfText(t: string)
    requires JsonText(t)
    ensures if Clean(t) then SplitLines(t + "\n") == [t] else |SplitLines(t + "\n")| > 1
  {
    if Clean(t) {
      var s := t + "\n";
      assert s[|t|] == '\n' && s[..|t|] == t && s[PastBreak(s, |t|)..] == "";
      assert forall k | 0 <= k < |t| :: s[k] == t[k];
      SplitAtBreak(s, |t|);
    } else {
      SplitInside(t);
      var rest := t[FirstBreak(t, 0) + 1..] + "\n";
      assert rest != "";
      assert SplitLines(rest) != [];
    }
  }

  // ---- the log --------------------------------------------------------

  /** One record: its text and a newline. */
  function Frame(text: string): seq<Byte> {
    Utf8(text + "\n")
  }

  function EncodeLog(texts: seq<string>): seq<Byte> {
    if texts == [] then [] else EncodeLog(texts[..|texts| - 1]) + Frame(texts[|texts| - 1])
  }

  function LastNewline(raw: seq<Byte>): (n: nat)
    ensures n <= |raw| && (n > 0 ==> raw[n - 1] == 10) && (forall k | n <= k < |raw| :: raw[k] != 10)
  {
    if raw == [] || raw[|raw| - 1] == 10 then |raw| else LastNewline(raw[..|raw| - 1])
  }

  predicate Torn(raw: seq<Byte>) {
    raw != [] && raw[|raw| - 1] != 10
  }

  /** Up to the last newline; what follows it was never committed. */
  function Committed(raw: seq<Byte>): seq<Byte> {
    if Torn(raw) then raw[..LastNewline(raw)] else raw
  }

  /** The lines a reader sees, or a decoding error. */
  function Lines(raw: seq<Byte>): Option<seq<string>> {
    match Decode(Committed(raw))
    case Some(text) => Some(SplitLines(text))
    case None => None
  }

  predicate JsonTexts(texts: seq<string>) {
    forall i | 0 <= i < |texts| :: JsonText(texts[i])
  }

  predicate AllClean(texts: seq<string>) {
    forall i | 0 <= i < |texts| :: Clean(texts[i])
  }

  function TextLog(texts: seq<string>): string {
    if texts == [] then "" else TextLog(texts[..|texts| - 1]) + (texts[|texts| - 1] + "\n")
  }

  lemma {:induction false} LogIsText(texts: seq<string>)
    ensures EncodeLog(texts) == Utf8(TextLog(texts))
  {
    if texts != [] {
      var front, last := texts[..|texts| - 1], texts[|texts| - 1];
      LogIsText(front);
      Utf8Joins(TextLog(front), last + "\n");
    }
  }

  lemma FrameEnds(text: string)
    requires JsonText(text)
    ensures Frame(text) == Utf8(text) + [10] && 10 !in Utf8(text)
  {
    Utf8Joins(text, "\n");
    assert "\n"[..0] == "" && '\n' as int == 10;
    assert Utf8("\n") == Utf8("") + Utf8Char('\n');
    forall c | c in text ensures c != '\n' {
      assert c as int >= 0x20;
    }
    NewlineByte(text);
  }

  lemma LogIsCommitted(texts: seq<string>)
    requires JsonTexts(texts)
    ensures !Torn(EncodeLog(texts)) && Committed(EncodeLog(texts)) == EncodeLog(texts)
  {
    if texts != [] {
      FrameEnds(texts[|texts| - 1]);
    }
  }

  lemma LinesOfLog(texts: seq<string>)
    requires JsonTexts(texts)
    ensures Lines(EncodeLog(texts)) == Some(SplitLines(TextLog(texts)))
  {
    LogIsCommitted(texts);
    LogIsText(texts);
    EncodedIsDecoded(TextLog(texts));
  }

  lemma LogEnds(texts: seq<string>)
    ensures Ended(TextLog(texts)) && (TextLog(texts) != "" ==> TextLog(texts)[|TextLog(texts)| - 1] == '\n')
  {
  }

  lemma LogSplitsAtItsLast(front: seq<string>, last: string)
    ensures SplitLines(TextLog(front) + (last + "\n")) == SplitLines(TextLog(front)) + SplitLines(last + "\n")
  {
    LogEnds(front);
    SplitJoins(TextLog(front), last + "\n");
  }

  /** As many lines as records, or more. */
  predicate SplitsInto(lines: seq<string>, texts: seq<string>) {
    |lines| >= |texts| && if AllClean(texts) then lines == texts else |lines| > |texts|
  }

  lemma SplitsIntoOneMore(lines: seq<string>, front: seq<string>, more: seq<string>, last: string)
    requires SplitsInto(lines, front) && if Clean(last) then more == [last] else |more| > 1
    ensures SplitsInto(lines + more, front + [last])
  {
    var texts := front + [last];
    assert texts[|front|] == last && forall i | 0 <= i < |front| :: texts[i] == front[i];
    if AllClean(texts) {
      assert AllClean(front);
    } else {
      assert !AllClean(front) || !Clean(last);
    }
  }

  lemma FrontAndLast(texts: seq<string>)
    requires texts != []
    ensures texts == texts[..|texts| - 1] + [texts[|texts| - 1]]
  {
  }

  lemma {:induction false} WholeLogSplits(texts: seq<string>)
    requires JsonTexts(texts)
    ensures SplitsInto(SplitLines(TextLog(texts)), texts)
  {
    if texts != [] {
      var front, last := texts[..|texts| - 1], texts[|texts| - 1];
      WholeLogSplits(front);
      LinesOfText(last);
      LogSplitsAtItsLast(front, last);
      SplitsIntoOneMore(SplitLines(TextLog(front)), front, SplitLines(last + "\n"), last);
      FrontAndLast(texts);
    }
  }

  /** Reading a log gives back its records exactly when none of them holds one of
      the separators U+0085, U+2028 and U+2029 that JSON leaves unescaped. */
  lemma LogRoundTrips(texts: seq<string>)
    requires JsonTexts(texts)
    ensures Lines(EncodeLog(texts)).Some?
    ensures Lines(EncodeLog(texts)) == Some(texts) <==> AllClean(texts)
  {
    LinesOfLog(texts);
    WholeLogSplits(texts);
  }

  lemma {:induction false} LastNewlineIs(raw: seq<Byte>, n: nat)
    requires n <= |raw| && (n > 0 ==> raw[n - 1] == 10) && (forall k | n <= k < |raw| :: raw[k] != 10)
    ensures LastNewline(raw) == n
  {
    assert LastNewline(raw) <= n;
  }

  /** What is left of a record cut short holds no newline. */
  lemma CutRecord(last: string, n: nat, k: nat)
    requires JsonText(last) && k < n < |Frame(last)|
    ensures Frame(last)[k] != 10
  {
    FrameEnds(last);
    assert Frame(last)[k] == Utf8(last)[k];
    assert Utf8(last)[k] in Utf8(last);
  }

  lemma TornIsFront(front: seq<string>, last: string, n: nat)
    requires JsonTexts(front) && JsonText(last) && 0 < n < |Frame(last)|
    ensures
      var cut := EncodeLog(front) + Frame(last)[..n];
      Torn(cut) && Committed(cut) == EncodeLog(front)
  {
    LogIsCommitted(front);
    var whole, part := EncodeLog(front), Frame(last)[..n];
    var cut := whole + part;
    forall k | |whole| <= k < |cut| ensures cut[k] != 10 {
      CutRecord(last, n, k - |whole|);
    }
    LastNewlineIs(cut, |whole|);
    assert cut[..|whole|] == whole;
  }

  lemma PrefixOfLog(texts: seq<string>, n: nat)
    requires texts != [] && n < |EncodeLog(texts)|
    ensures
      var front, last := texts[..|texts| - 1], texts[|texts| - 1];
      var m := |EncodeLog(front)|;
      && n - m < |Frame(last)|
      && EncodeLog(texts)[..n] == if n <= m then EncodeLog(front)[..n] else EncodeLog(front) + Frame(last)[..n - m]
  {
  }

  /** The committed part of some bytes is the log of the first `k` records, and
      they are torn exactly when there is more. */
  predicate Recovers(raw: seq<Byte>, texts: seq<string>, k: nat)
    requires k <= |texts|
  {
    Committed(raw) == EncodeLog(texts[..k]) && (Torn(raw) <==> raw != EncodeLog(texts[..k]))
  }

  lemma WholeLogRecovers(texts: seq<string>)
    requires JsonTexts(texts)
    ensures Recovers(EncodeLog(texts), texts, |texts|)
  {
    LogIsCommitted(texts);
    assert texts[..|texts|] == texts;
  }

  lemma CutLogRecovers(texts: seq<string>, n: nat)
    requires JsonTexts(texts) && texts != [] && |EncodeLog(texts[..|texts| - 1])| < n < |EncodeLog(texts)|
    ensures Recovers(EncodeLog(texts)[..n], texts, |texts| - 1)
  {
    PrefixOfLog(texts, n);
    TornIsFront(texts[..|texts| - 1], texts[|texts| - 1], n - |EncodeLog(texts[..|texts| - 1])|);
    LogIsCommitted(texts[..|texts| - 1]);
  }

  lemma RecoversFewer(raw: seq<Byte>, texts: seq<string>, k: nat)
    requires texts != [] && k < |texts| && Recovers(raw, texts[..|texts| - 1], k)
    ensures Recovers(raw, texts, k)
  {
    assert texts[..k] == texts[..|texts| - 1][..k];
  }

  lemma PrefixOfFewer(texts: seq<string>, n: nat)
    requires texts != [] && n <= |EncodeLog(texts[..|texts| - 1])|
    ensures n <= |EncodeLog(texts)| && EncodeLog(texts)[..n] == EncodeLog(texts[..|texts| - 1])[..n]
  {
  }

  /** A crash leaves a byte prefix.  Its committed part is a whole number of
      records, and it is torn exactly when it ends inside one. */
  lemma {:induction false} PrefixIsRecords(texts: seq<string>, n: nat) returns (k: nat)
    requires JsonTexts(texts) && n <= |EncodeLog(texts)|
    ensures k <= |texts| && Recovers(EncodeLog(texts)[..n], texts, k)
  {
    k := |texts|;
    if n == |EncodeLog(texts)| {
      WholeLogRecovers(texts);
      assert EncodeLog(texts)[..n] == EncodeLog(texts);
    } else if n > |EncodeLog(texts[..|texts| - 1])| {
      k := |texts| - 1;
      CutLogRecovers(texts, n);
    } else {
      k := PrefixIsRecords(texts[..|texts| - 1], n);
      PrefixOfFewer(texts, n);
      RecoversFewer(EncodeLog(texts)[..n], texts, k);
    }
  }

  /** Reading any byte prefix of a clean log gives a prefix of its records. */
  lemma PrefixReadsAsPrefix(texts: seq<string>, n: nat)
    requires JsonTexts(texts) && AllClean(texts) && n <= |EncodeLog(texts)|
    ensures Lines(EncodeLog(texts)[..n]).Some? && Lines(EncodeLog(texts)[..n]).value <= texts
  {
    var k := PrefixIsRecords(texts, n);
    LogRoundTrips(texts[..k]);
    assert Committed(EncodeLog(texts[..k])) == EncodeLog(texts[..k]) by {
      LogIsCommitted(texts[..k]);
    }
  }

  /** An append to a torn file is refused. */
  function Appended(raw: seq<Byte>, text: string): Result<seq<Byte>, ()> {
    if Torn(raw) then Err(()) else Ok(raw + Frame(text))
  }

  /** Whatever a crash left, an append either adds one record to the records
      there, or is refused because the last of them is torn. */
  lemma AppendAfterCrash(texts: seq<string>, n: nat, text: string)
    requires JsonTexts(texts) && JsonText(text) && n <= |EncodeLog(texts)|
    ensures
      var raw := EncodeLog(texts)[..n];
      || (Torn(raw) && Appended(raw, text).Err?)
      || (exists k | 0 <= k <= |texts| :: raw == EncodeLog(texts[..k]) && Appended(raw, text) == Ok(EncodeLog(texts[..k] + [text])))
  {
    var k := PrefixIsRecords(texts, n);
    assert (texts[..k] + [text])[..k] == texts[..k];
  }
}
