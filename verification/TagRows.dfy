/** Rows of the article-tag sidecar, the text they are written as, and their
    last-write-wins reading. */
module TagRows {
  import opened Text
  import Framing

  const MANUAL_TAG_MAX := 10
  const MANUAL_TAG_CHARS := 24

  datatype Action = Add | Remove

  datatype Dim = Content | Manual | OtherDim(name: string)

  /** One append-only tagging fact. */
  datatype TagRow = TagRow(
    articleId: string,
    tag: string,
    dim: Dim,
    source: string,
    ruleId: string,
    taggedAt: string,
    action: Action,
    fallback: bool)

  type Key = (string, string)

  function KeyOf(row: TagRow): Key {
    (row.articleId, row.tag)
  }

  /** The rows that the strict decoder accepts. */
  predicate Storable(row: TagRow) {
    row.articleId != "" && row.tag != "" && (row.dim.OtherDim? ==> row.dim.name !in {"", "content", "manual"})
  }

  // ---- rows as text ---------------------------------------------------

  /** The line breaks of `splitlines` that JSON leaves unescaped. */
  predicate IsSeparator(c: char) {
    c == '\U{85}' || c == '\U{2028}' || c == '\U{2029}'
  }

  predicate PlainText(s: string) {
    forall i | 0 <= i < |s| :: !IsSeparator(s[i])
  }

  /** A row none of whose texts holds a separator. */
  predicate Plain(row: TagRow) {
    && PlainText(row.articleId) && PlainText(row.tag) && PlainText(row.source) && PlainText(row.ruleId)
    && PlainText(row.taggedAt) && (row.dim.OtherDim? ==> PlainText(row.dim.name))
  }

  /** JSON for rows without escapes beyond the required ones, and its reader. */
  datatype Codec = Codec(enc: TagRow -> string, dec: string -> Option<TagRow>)

  /** Blank lines are skipped; other lines are rows or torn. */
  function LineRow(c: Codec, line: string): Option<TagRow> {
    if Strip(line) == "" then None else c.dec(line)
  }

  /** A row's JSON reads back, shows every separator in the row as it is, and
      where it falls apart at them no shard of it is itself a row. */
  ghost predicate Encodes(c: Codec, row: TagRow) {
    var json := c.enc(row);
    && Framing.JsonText(json) && Strip(json) != "" && c.dec(json) == Some(row)
    && (Framing.Clean(json) <==> Plain(row))
    && (!Plain(row) ==> forall line | line in Framing.SplitLines(json + "\n") :: LineRow(c, line).None?)
  }

  ghost predicate Faithful(c: Codec) {
    && (forall row | Storable(row) :: Encodes(c, row))
    && (forall line :: c.dec(line).Some? ==> Storable(c.dec(line).value))
  }

  function RowsOfLines(c: Codec, lines: seq<string>): (rows: seq<TagRow>)
    ensures |rows| <= |lines|
  {
    if lines == [] then []
    else
      var front := RowsOfLines(c, lines[..|lines| - 1]);
      match LineRow(c, lines[|lines| - 1])
      case Some(row) => front + [row]
      case None => front
  }

  function TornLines(c: Codec, lines: seq<string>): nat {
    if lines == [] then 0
    else
      var line := lines[|lines| - 1];
      TornLines(c, lines[..|lines| - 1]) + if Strip(line) != "" && c.dec(line).None? then 1 else 0
  }

  /** How many lines have something on them. */
  function InkLines(lines: seq<string>): nat {
    if lines == [] then 0 else InkLines(lines[..|lines| - 1]) + if Strip(lines[|lines| - 1]) != "" then 1 else 0
  }

  /** Each of them is a row or torn. */
  lemma {:induction false} RowsAndTornLines(c: Codec, lines: seq<string>)
    ensures InkLines(lines) == |RowsOfLines(c, lines)| + TornLines(c, lines)
  {
    if lines != [] {
      RowsAndTornLines(c, lines[..|lines| - 1]);
    }
  }

  lemma {:induction false} RowsOfLinesJoin(c: Codec, a: seq<string>, b: seq<string>)
    ensures RowsOfLines(c, a + b) == RowsOfLines(c, a) + RowsOfLines(c, b)
  {
    if b == [] {
      assert a + b == a;
    } else {
      assert (a + b)[..|a + b| - 1] == a + b[..|b| - 1];
      RowsOfLinesJoin(c, a, b[..|b| - 1]);
    }
  }

  lemma {:induction false} ShardsAreNoRows(c: Codec, lines: seq<string>)
    requires forall line | line in lines :: LineRow(c, line).None?
    ensures RowsOfLines(c, lines) == []
  {
    if lines != [] {
      assert lines[|lines| - 1] in lines;
      assert forall line | line in lines[..|lines| - 1] :: line in lines;
      ShardsAreNoRows(c, lines[..|lines| - 1]);
    }
  }

  // ---- the file -------------------------------------------------------

  /** What the stores need of a file: the rows a reader finds in its text, and
      the text that is appended for a row. */
  datatype Disk = Disk(read: string -> seq<TagRow>, line: TagRow -> string)

  function Sidecar(c: Codec): Disk {
    Disk(text => RowsOfLines(c, Framing.SplitLines(text)), row => c.enc(row) + "\n")
  }

  ghost predicate Reads(d: Disk, c: Codec) {
    forall text {:trigger Framing.SplitLines(text)} :: d.read(text) == RowsOfLines(c, Framing.SplitLines(text))
  }

  /** What is read after a row was appended to a text that had ended. */
  function ReadAfter(rows: seq<TagRow>, row: TagRow): seq<TagRow> {
    if Plain(row) then rows + [row] else rows
  }

  ghost predicate Lawful(d: Disk) {
    && d.read("") == []
    && (forall text, row {:trigger d.read(text + d.line(row))} {:trigger Framing.Ended(text + d.line(row))}
          | Framing.Ended(text) && Storable(row) ::
          Framing.Ended(text + d.line(row)) && d.read(text + d.line(row)) == ReadAfter(d.read(text), row))
    && (forall text, i | 0 <= i < |d.read(text)| :: Storable(d.read(text)[i]))
  }

  lemma OneRowsLines(c: Codec, row: TagRow)
    requires Encodes(c, row)
    ensures RowsOfLines(c, Framing.SplitLines(c.enc(row) + "\n")) == if Plain(row) then [row] else []
  {
    var json := c.enc(row);
    if Plain(row) {
      Framing.LinesOfText(json);
      assert [json][..0] == [];
    } else {
      ShardsAreNoRows(c, Framing.SplitLines(json + "\n"));
    }
  }

  lemma AppendedRowIsRead(c: Codec, text: string, row: TagRow)
    requires Encodes(c, row) && Framing.Ended(text)
    ensures RowsOfLines(c, Framing.SplitLines(text + (c.enc(row) + "\n"))) == ReadAfter(RowsOfLines(c, Framing.SplitLines(text)), row)
  {
    var line := c.enc(row) + "\n";
    assert c.enc(row) != "" && line[0] == c.enc(row)[0] && c.enc(row)[0] as int >= 0x20;
    Framing.SplitJoins(text, line);
    RowsOfLinesJoin(c, Framing.SplitLines(text), Framing.SplitLines(line));
    OneRowsLines(c, row);
  }

  lemma {:induction false} DecodedRowsAreStorable(c: Codec, lines: seq<string>)
    requires Faithful(c)
    ensures forall i | 0 <= i < |RowsOfLines(c, lines)| :: Storable(RowsOfLines(c, lines)[i])
  {
    if lines != [] {
      DecodedRowsAreStorable(c, lines[..|lines| - 1]);
    }
  }

  /** The sidecar: a row appended to a file that ends in a line break is read
      back exactly when it is plain, and changes nothing else. */
  lemma SidecarIsLawful(c: Codec)
    requires Faithful(c)
    ensures Lawful(Sidecar(c)) && Reads(Sidecar(c), c)
  {
    var d := Sidecar(c);
    assert Framing.SplitLines("") == [];
    forall text, row | Framing.Ended(text) && Storable(row)
      ensures Framing.Ended(text + d.line(row)) && d.read(text + d.line(row)) == ReadAfter(d.read(text), row)
    {
      AppendedRowIsRead(c, text, row);
    }
    forall text, i | 0 <= i < |d.read(text)| ensures Storable(d.read(text)[i]) {
      DecodedRowsAreStorable(c, Framing.SplitLines(text));
    }
  }

  lemma TextsJoin(c: Codec, front: string, rest: string)
    requires Framing.Follows(front, rest)
    ensures Sidecar(c).read(front + rest) == Sidecar(c).read(front) + Sidecar(c).read(rest)
  {
    Framing.SplitJoins(front, rest);
    RowsOfLinesJoin(c, Framing.SplitLines(front), Framing.SplitLines(rest));
  }

  lemma TailIsOneLine(front: string, tail: string, json: string)
    requires Framing.Ended(front) && Framing.JsonText(tail) && tail != ""
    ensures front + tail + (json + "\n") == front + ((tail + json) + "\n")
    ensures Framing.Follows(front, (tail + json) + "\n")
  {
    assert ((tail + json) + "\n")[0] == tail[0] && tail[0] as int >= 0x20;
  }

  /** A row appended behind a torn tail goes down with it, whatever it holds. */
  lemma TornTailSwallowsTheRow(c: Codec, front: string, tail: string, row: TagRow)
    requires Encodes(c, row) && Plain(row) && Framing.Ended(front) && Framing.JsonText(tail) && Framing.Clean(tail) && tail != ""
    requires c.dec(tail + c.enc(row)).None?
    ensures Sidecar(c).read(front + tail + Sidecar(c).line(row)) == Sidecar(c).read(front)
  {
    var last := tail + c.enc(row);
    TailIsOneLine(front, tail, c.enc(row));
    TextsJoin(c, front, last + "\n");
    UnreadableLine(c, last);
  }

  /** A text that ends in a newline, or is empty. */
  predicate WholeLines(s: string) {
    s == "" || s[|s| - 1] == '\n'
  }

  lemma NoRowsBetween<T>(a: seq<T>, b: seq<T>, c: seq<T>)
    requires b == []
    ensures a + (b + c) == a + c
  {
  }

  /** Torn lines anywhere in a file change nothing of what is read, and so none of
      the tags in force. */
  lemma TornLinesChangeNothing(c: Codec, front: string, torn: string, rest: string)
    requires WholeLines(front) && WholeLines(torn)
    requires forall line | line in Framing.SplitLines(torn) :: LineRow(c, line).None?
    ensures Sidecar(c).read(front + (torn + rest)) == Sidecar(c).read(front + rest)
  {
    var read := Sidecar(c).read;
    TextsJoin(c, front, torn + rest);
    TextsJoin(c, front, rest);
    TextsJoin(c, torn, rest);
    ShardsAreNoRows(c, Framing.SplitLines(torn));
    NoRowsBetween(read(front), read(torn), read(rest));
  }

  lemma UnreadableLine(c: Codec, line: string)
    requires Framing.JsonText(line) && Framing.Clean(line) && c.dec(line).None?
    ensures RowsOfLines(c, Framing.SplitLines(line + "\n")) == []
  {
    Framing.LinesOfText(line);
    assert [line][..0] == [];
  }

  /** The rows that survive being written. */
  function PlainRows(rows: seq<TagRow>): seq<TagRow> {
    if rows == [] then [] else ReadAfter(PlainRows(rows[..|rows| - 1]), rows[|rows| - 1])
  }

  /** The text that a compaction writes. */
  function Dump(d: Disk, rows: seq<TagRow>): string {
    if rows == [] then "" else Dump(d, rows[..|rows| - 1]) + d.line(rows[|rows| - 1])
  }

  predicate AllStorable(rows: seq<TagRow>) {
    forall i | 0 <= i < |rows| :: Storable(rows[i])
  }

  predicate AllPlain(rows: seq<TagRow>) {
    forall i | 0 <= i < |rows| :: Plain(rows[i])
  }

  lemma {:induction false} DumpReads(d: Disk, rows: seq<TagRow>)
    requires Lawful(d) && AllStorable(rows)
    ensures Framing.Ended(Dump(d, rows)) && d.read(Dump(d, rows)) == PlainRows(rows)
  {
    if rows != [] {
      DumpReads(d, rows[..|rows| - 1]);
      assert Storable(rows[|rows| - 1]);
    }
  }

  lemma PlainRowsAppend(rows: seq<TagRow>, row: TagRow)
    ensures PlainRows(rows + [row]) == ReadAfter(PlainRows(rows), row)
    ensures PlainRows(ReadAfter(rows, row)) == ReadAfter(PlainRows(rows), row)
  {
    assert (rows + [row])[..|rows|] == rows;
  }

  /** The plain rows are the rows that are plain. */
  lemma {:induction false} InPlainRows(rows: seq<TagRow>, row: TagRow)
    ensures row in PlainRows(rows) <==> row in rows && Plain(row)
  {
    if rows != [] {
      InPlainRows(rows[..|rows| - 1], row);
      assert rows == rows[..|rows| - 1] + [rows[|rows| - 1]];
    }
  }

  lemma PlainRowsAreStorable(rows: seq<TagRow>)
    requires AllStorable(rows)
    ensures AllStorable(PlainRows(rows)) && PlainRows(PlainRows(rows)) == PlainRows(rows)
  {
    PlainRowsKeepPlain(rows);
    PlainRowsKeepPlain(PlainRows(rows));
    forall i | 0 <= i < |PlainRows(rows)| ensures Storable(PlainRows(rows)[i]) {
      InPlainRows(rows, PlainRows(rows)[i]);
    }
  }

  /** Everything is kept exactly when every row is plain. */
  lemma {:induction false} PlainRowsKeepPlain(rows: seq<TagRow>)
    ensures AllPlain(PlainRows(rows)) && |PlainRows(rows)| <= |rows|
    ensures PlainRows(rows) == rows <==> AllPlain(rows)
  {
    if rows != [] {
      var front, last := rows[..|rows| - 1], rows[|rows| - 1];
      PlainRowsKeepPlain(front);
      assert rows == front + [last];
    }
  }

  // ---- the overlay ----------------------------------------------------

  /** The last row of every (article, tag), tombstones included. */
  function Wins(rows: seq<TagRow>): map<Key, TagRow> {
    if rows == [] then map[]
    else
      var last := rows[|rows| - 1];
      Wins(rows[..|rows| - 1])[KeyOf(last) := last]
  }

  lemma WinsAppend(rows: seq<TagRow>, row: TagRow)
    ensures Wins(rows + [row]) == Wins(rows)[KeyOf(row) := row]
  {
    assert (rows + [row])[..|rows|] == rows;
  }

  /** Every winner is a row, under its own key. */
  lemma {:induction false} WinsKeyed(rows: seq<TagRow>)
    ensures forall k | k in Wins(rows) :: KeyOf(Wins(rows)[k]) == k && Wins(rows)[k] in rows
  {
    if rows != [] {
      WinsKeyed(rows[..|rows| - 1]);
    }
  }

  /** The tags in force: the winning rows that are not tombstones. */
  function Active(rows: seq<TagRow>): map<Key, TagRow> {
    map k | k in Wins(rows) && Wins(rows)[k].action.Add? :: Wins(rows)[k]
  }

  lemma WinnerIsStorable(rows: seq<TagRow>, k: Key)
    requires AllStorable(rows) && k in Active(rows)
    ensures Storable(Active(rows)[k]) && KeyOf(Active(rows)[k]) == k
  {
    WinsKeyed(rows);
    var i :| 0 <= i < |rows| && rows[i] == Active(rows)[k];
  }

  lemma ActiveAppend(rows: seq<TagRow>, row: TagRow)
    ensures Active(rows + [row]) ==
            if row.action.Add? then Active(rows)[KeyOf(row) := row] else Active(rows) - {KeyOf(row)}
  {
    WinsAppend(rows, row);
  }

  /** A compaction loses a tombstone that is not plain, which some other writer
      escaped, and the tag it removed is in force again. */
  lemma LostTombstoneRevivesItsTag(d: Disk, add: TagRow, tombstone: TagRow)
    requires Lawful(d) && Storable(add) && Storable(tombstone) && KeyOf(add) == KeyOf(tombstone)
    requires add.action.Add? && tombstone.action.Remove? && Plain(add) && !Plain(tombstone)
    ensures Active([add, tombstone]) == map[] && Active(d.read(Dump(d, [add, tombstone]))) == map[KeyOf(add) := add]
  {
    DumpReads(d, [add, tombstone]);
    assert [add, tombstone] == ([] + [add]) + [tombstone];
    PlainRowsAppend([], add);
    PlainRowsAppend([] + [add], tombstone);
    ActiveAppend([], add);
    ActiveAppend([] + [add], tombstone);
    assert Active([]) == map[];
  }

  function TagsOf(active: map<Key, TagRow>, article: string): set<string> {
    set k | k in active && k.0 == article :: k.1
  }

  function ManualTagsOf(active: map<Key, TagRow>, article: string): set<string> {
    set k | k in active && k.0 == article && active[k].dim == Manual :: k.1
  }

  /** The manual-tag check: too long, or one too many for its article. */
  predicate ManualRefused(active: map<Key, TagRow>, article: string, tag: string) {
    || |tag| > MANUAL_TAG_CHARS
    || (tag !in ManualTagsOf(active, article) && |ManualTagsOf(active, article)| >= MANUAL_TAG_MAX)
  }
}
