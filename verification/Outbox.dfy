/** The two deduplicated outboxes over a framed log.  The job outbox is strict:
    a line it cannot read is an error.  The event outbox skips such lines. */
module Outboxes {
  import opened Text
  import opened Framing

  /** A row as far as admission cares: its key, its replay identity, and the
      creation time, which is in neither. */
  datatype Row = Row(key: string, identity: string, createdAt: string)

  /** JSON for rows, and its reader with all the field checks. */
  datatype Codec = Codec(enc: Row -> string, dec: string -> Option<Row>)

  ghost predicate Faithful(c: Codec) {
    forall r :: JsonText(c.enc(r)) && Strip(c.enc(r)) == c.enc(r) && c.enc(r) != "" && c.dec(c.enc(r)) == Some(r)
  }

  datatype Error = TornTail | Invalid | Conflict

  datatype Outcome = Added | Duplicate | Refused(error: Error) | Crashed

  type Ids = map<string, string>

  function Noted(ids: Ids, r: Row): Result<Ids, Error> {
    if r.key in ids && ids[r.key] != r.identity then Err(Conflict) else Ok(ids[r.key := r.identity])
  }

  function WithLine(c: Codec, strict: bool, ids: Ids, text: string): Result<Ids, Error> {
    var line := Strip(text);
    if line == "" then Ok(ids)
    else
      match c.dec(line)
      case None => if strict then Err(Invalid) else Ok(ids)
      case Some(r) => Noted(ids, r)
  }

  /** What the lines say, up to the first that is an error. */
  function IdsOf(c: Codec, strict: bool, lines: seq<string>): Result<Ids, Error> {
    if lines == [] then Ok(map[])
    else
      var rest := IdsOf(c, strict, lines[..|lines| - 1]);
      if rest.Err? then rest else WithLine(c, strict, rest.value, lines[|lines| - 1])
  }

  function Identities(c: Codec, strict: bool, raw: seq<Byte>): Result<Ids, Error> {
    match Lines(raw)
    case None => Err(Invalid)
    case Some(lines) => IdsOf(c, strict, lines)
  }

  /** What an append to this file comes to, before anything is written. */
  function Admission(c: Codec, strict: bool, raw: seq<Byte>, r: Row): Outcome {
    if Torn(raw) then Refused(TornTail)
    else
      match Identities(c, strict, raw)
      case Err(e) => Refused(e)
      case Ok(ids) =>
        if r.key !in ids then Added
        else if ids[r.key] == r.identity then Duplicate
        else Refused(Conflict)
  }

  class Outbox {
    const c: Codec
    const strict: bool
    var raw: seq<Byte>

    constructor (c: Codec, strict: bool, raw: seq<Byte>)
      ensures this.c == c && this.strict == strict && this.raw == raw
    {
      this.c, this.strict, this.raw := c, strict, raw;
    }

    method ReadIdentities() returns (ids: Result<Ids, Error>)
      ensures ids == Identities(c, strict, raw)
    {
      var lines := Lines(raw);
      if lines.None? {
        return Err(Invalid);
      }
      var seen: Ids := map[];
      var i := 0;
      while i < |lines.value|
        invariant 0 <= i <= |lines.value| && IdsOf(c, strict, lines.value[..i]) == Ok(seen)
      {
        var more := Note(seen, lines.value[i]);
        NextLine(c, strict, lines.value, i);
        if more.Err? {
          IdsFail(c, strict, lines.value, i + 1);
          return more;
        }
        seen, i := more.value, i + 1;
      }
      assert lines.value[..|lines.value|] == lines.value;
      ids := Ok(seen);
    }

    /** One more line. */
    method Note(seen: Ids, text: string) returns (ids: Result<Ids, Error>)
      ensures ids == WithLine(c, strict, seen, text)
    {
      var line := Strip(text);
      if line == "" {
        return Ok(seen);
      }
      match c.dec(line) {
        case None => return if strict then Err(Invalid) else Ok(seen);
        case Some(r) =>
          if r.key in seen && seen[r.key] != r.identity {
            return Err(Conflict);
          }
          ids := Ok(seen[r.key := r.identity]);
      }
    }

    /** Under the lock: refuse a torn file, look for the key, write one frame. */
    method Append(r: Row) returns (o: Outcome)
      modifies this
      ensures o == Admission(c, strict, old(raw), r)
      ensures raw == if o.Added? then old(raw) + Frame(c.enc(r)) else old(raw)
    {
      if Torn(raw) {
        return Refused(TornTail);
      }
      var ids := ReadIdentities();
      match ids {
        case Err(e) => return Refused(e);
        case Ok(seen) =>
          if r.key in seen {
            return if seen[r.key] != r.identity then Refused(Conflict) else Duplicate;
          }
      }
      raw := raw + Frame(c.enc(r));
      o := Added;
    }
  }

  lemma NextLine(c: Codec, strict: bool, lines: seq<string>, i: nat)
    requires i < |lines| && IdsOf(c, strict, lines[..i]).Ok?
    ensures IdsOf(c, strict, lines[..i + 1]) == WithLine(c, strict, IdsOf(c, strict, lines[..i]).value, lines[i])
  {
    assert lines[..i + 1][..i] == lines[..i];
  }

  /** The first error ends the reading. */
  lemma {:induction false} IdsFail(c: Codec, strict: bool, lines: seq<string>, n: nat)
    requires n <= |lines| && IdsOf(c, strict, lines[..n]).Err?
    ensures IdsOf(c, strict, lines) == IdsOf(c, strict, lines[..n])
    decreases |lines|
  {
    if n < |lines| {
      assert lines[..|lines| - 1][..n] == lines[..n];
      IdsFail(c, strict, lines[..|lines| - 1], n);
    } else {
      assert lines[..n] == lines;
    }
  }

  // ---- which appends are admitted, said of the lines ------------------

  /** The row that a line holds, if it is a record. */
  function Record(c: Codec, line: string): Option<Row> {
    if Strip(line) == "" then None else c.dec(Strip(line))
  }

  predicate Holding(c: Codec, lines: seq<string>, key: string, i: int) {
    0 <= i < |lines| && Record(c, lines[i]).Some? && Record(c, lines[i]).value.key == key
  }

  /** Every line of the strict outbox is blank or a record. */
  predicate AllRecords(c: Codec, lines: seq<string>) {
    forall i | 0 <= i < |lines| :: Strip(lines[i]) == "" || Record(c, lines[i]).Some?
  }

  /** Records under one key are one row, but for its creation time. */
  predicate KeysAgree(c: Codec, lines: seq<string>) {
    forall i, j | 0 <= i < j < |lines| && Record(c, lines[i]).Some? && Holding(c, lines, Record(c, lines[i]).value.key, j) ::
      Record(c, lines[i]).value.identity == Record(c, lines[j]).value.identity
  }

  predicate Agree(c: Codec, strict: bool, lines: seq<string>) {
    (strict ==> AllRecords(c, lines)) && KeysAgree(c, lines)
  }

  /** The identities are those of the records. */
  ghost predicate Identify(c: Codec, lines: seq<string>, ids: Ids) {
    && (forall key :: key in ids <==> exists i :: Holding(c, lines, key, i))
    && (forall key, i | Holding(c, lines, key, i) && key in ids :: ids[key] == Record(c, lines[i]).value.identity)
  }

  lemma HoldingMore(c: Codec, front: seq<string>, line: string)
    ensures forall key, i :: Holding(c, front + [line], key, i) <==>
              Holding(c, front, key, i) || (i == |front| && Record(c, line).Some? && Record(c, line).value.key == key)
    ensures forall i | 0 <= i < |front| :: (front + [line])[i] == front[i]
  {
  }

  /** The line is fit for the outbox and agrees with what was read. */
  predicate Fits(c: Codec, strict: bool, line: string, ids: Ids) {
    && (strict ==> Strip(line) == "" || Record(c, line).Some?)
    && (Record(c, line).Some? && Record(c, line).value.key in ids ==> ids[Record(c, line).value.key] == Record(c, line).value.identity)
  }

  lemma AgreeLess(c: Codec, strict: bool, front: seq<string>, line: string)
    requires Agree(c, strict, front + [line])
    ensures Agree(c, strict, front)
  {
    HoldingMore(c, front, line);
  }

  lemma RecordsMore(c: Codec, front: seq<string>, line: string)
    ensures AllRecords(c, front + [line]) <==> AllRecords(c, front) && (Strip(line) == "" || Record(c, line).Some?)
  {
    assert (front + [line])[|front|] == line && forall i | 0 <= i < |front| :: (front + [line])[i] == front[i];
  }

  lemma FittingAgrees(c: Codec, front: seq<string>, line: string, ids: Ids)
    requires KeysAgree(c, front) && Identify(c, front, ids) && Fits(c, false, line, ids)
    ensures KeysAgree(c, front + [line])
  {
    HoldingMore(c, front, line);
    var lines := front + [line];
    forall i, j | 0 <= i < j < |lines| && Record(c, lines[i]).Some? && Holding(c, lines, Record(c, lines[i]).value.key, j)
      ensures Record(c, lines[i]).value.identity == Record(c, lines[j]).value.identity
    {
      assert Holding(c, front, Record(c, lines[i]).value.key, i);
    }
  }

  lemma AgreeingFits(c: Codec, front: seq<string>, line: string, ids: Ids)
    requires KeysAgree(c, front + [line]) && Identify(c, front, ids)
    ensures Fits(c, false, line, ids)
  {
    HoldingMore(c, front, line);
    if Record(c, line).Some? && Record(c, line).value.key in ids {
      var i :| Holding(c, front, Record(c, line).value.key, i);
      assert Holding(c, front + [line], Record(c, line).value.key, |front|);
    }
  }

  lemma IdentifyMore(c: Codec, front: seq<string>, line: string, ids: Ids)
    requires Identify(c, front, ids) && Record(c, line).Some? && Fits(c, false, line, ids)
    ensures Identify(c, front + [line], ids[Record(c, line).value.key := Record(c, line).value.identity])
  {
    HoldingMore(c, front, line);
    assert Holding(c, front + [line], Record(c, line).value.key, |front|);
    forall key | key in ids ensures exists i :: Holding(c, front + [line], key, i) {
      var i :| Holding(c, front, key, i);
      assert Holding(c, front + [line], key, i);
    }
  }

  lemma IdentifySame(c: Codec, front: seq<string>, line: string, ids: Ids)
    requires Identify(c, front, ids) && Record(c, line).None?
    ensures Identify(c, front + [line], ids)
  {
    HoldingMore(c, front, line);
    forall key | key in ids ensures exists i :: Holding(c, front + [line], key, i) {
      var i :| Holding(c, front, key, i);
      assert Holding(c, front + [line], key, i);
    }
  }

  lemma ReadOneMore(c: Codec, strict: bool, front: seq<string>, line: string, ids: Ids)
    requires IdsOf(c, strict, front) == Ok(ids)
    ensures
      IdsOf(c, strict, front + [line]) ==
        if !Fits(c, strict, line, ids) then WithLine(c, strict, ids, line)
        else if Record(c, line).None? then Ok(ids)
        else Ok(ids[Record(c, line).value.key := Record(c, line).value.identity])
    ensures WithLine(c, strict, ids, line).Ok? <==> Fits(c, strict, line, ids)
  {
    assert (front + [line])[..|front|] == front;
  }

  lemma ReadMoreWhenRecordsAgree(c: Codec, strict: bool, front: seq<string>, line: string, ids: Ids)
    requires IdsOf(c, strict, front) == Ok(ids) && Agree(c, strict, front) && Identify(c, front, ids)
    ensures IdsOf(c, strict, front + [line]).Ok? <==> Agree(c, strict, front + [line])
    ensures IdsOf(c, strict, front + [line]).Ok? ==> Identify(c, front + [line], IdsOf(c, strict, front + [line]).value)
  {
    ReadOneMore(c, strict, front, line, ids);
    RecordsMore(c, front, line);
    if Fits(c, strict, line, ids) {
      FittingAgrees(c, front, line, ids);
      if Record(c, line).None? {
        IdentifySame(c, front, line, ids);
      } else {
        IdentifyMore(c, front, line, ids);
      }
    } else if KeysAgree(c, front + [line]) {
      AgreeingFits(c, front, line, ids);
    }
  }

  /** A file is read exactly when its records agree and, in the strict outbox, its
      other lines are blank; what is read are the identities of the records. */
  lemma {:induction false} ReadWhenRecordsAgree(c: Codec, strict: bool, lines: seq<string>)
    ensures IdsOf(c, strict, lines).Ok? <==> Agree(c, strict, lines)
    ensures IdsOf(c, strict, lines).Ok? ==> Identify(c, lines, IdsOf(c, strict, lines).value)
  {
    if lines != [] {
      var front, line := lines[..|lines| - 1], lines[|lines| - 1];
      assert lines == front + [line];
      ReadWhenRecordsAgree(c, strict, front);
      if IdsOf(c, strict, front).Ok? {
        ReadMoreWhenRecordsAgree(c, strict, front, line, IdsOf(c, strict, front).value);
      } else if Agree(c, strict, lines) {
        AgreeLess(c, strict, front, line);
      }
    }
  }

  /** Why a file is not read. */
  predicate Explains(c: Codec, strict: bool, lines: seq<string>, e: Error) {
    match e
    case Invalid => strict && !AllRecords(c, lines)
    case Conflict => !KeysAgree(c, lines)
    case TornTail => false
  }

  lemma ExplainsMore(c: Codec, strict: bool, front: seq<string>, line: string, e: Error)
    requires Explains(c, strict, front, e)
    ensures Explains(c, strict, front + [line], e)
  {
    RecordsMore(c, front, line);
    if KeysAgree(c, front + [line]) {
      AgreeLess(c, false, front, line);
    }
  }

  lemma {:induction false} ErrorsAreExplained(c: Codec, strict: bool, lines: seq<string>)
    requires IdsOf(c, strict, lines).Err?
    ensures Explains(c, strict, lines, IdsOf(c, strict, lines).error)
  {
    var front, line := lines[..|lines| - 1], lines[|lines| - 1];
    assert lines == front + [line];
    if IdsOf(c, strict, front).Err? {
      ErrorsAreExplained(c, strict, front);
      ExplainsMore(c, strict, front, line, IdsOf(c, strict, front).error);
    } else {
      var ids := IdsOf(c, strict, front).value;
      ReadWhenRecordsAgree(c, strict, front);
      ReadOneMore(c, strict, front, line, ids);
      RecordsMore(c, front, line);
      if KeysAgree(c, lines) {
        AgreeingFits(c, front, line, ids);
      }
    }
  }

  lemma UnreadIsRefused(c: Codec, strict: bool, raw: seq<Byte>, r: Row, lines: seq<string>)
    requires !Torn(raw) && Lines(raw) == Some(lines) && !Agree(c, strict, lines)
    ensures
      var o := Admission(c, strict, raw, r);
      && (o == Refused(Invalid) || o == Refused(Conflict))
      && (!strict || AllRecords(c, lines) ==> o == Refused(Conflict))
      && (KeysAgree(c, lines) ==> o == Refused(Invalid))
  {
    ReadWhenRecordsAgree(c, strict, lines);
    ErrorsAreExplained(c, strict, lines);
  }

  lemma ReadIsAdmitted(c: Codec, strict: bool, raw: seq<Byte>, r: Row, lines: seq<string>)
    requires !Torn(raw) && Lines(raw) == Some(lines) && Agree(c, strict, lines)
    ensures
      var o := Admission(c, strict, raw, r);
      && (o == Added <==> forall k :: !Holding(c, lines, r.key, k))
      && (forall i | Holding(c, lines, r.key, i) ::
            o == if Record(c, lines[i]).value.identity == r.identity then Duplicate else Refused(Conflict))
  {
    ReadWhenRecordsAgree(c, strict, lines);
  }

  /** What an append to any file is answered.  It is refused when the last line is
      torn, when the bytes are no text, when a line of the strict outbox is no
      record, and when two records under one key are not one row; otherwise it is
      added exactly when no record has its key, and is a duplicate of one with the
      same identity and in conflict with one of another. */
  lemma AppendsAreJudged(c: Codec, strict: bool, raw: seq<Byte>, r: Row, lines: seq<string>)
    requires Lines(raw).Some? ==> Lines(raw) == Some(lines)
    ensures
      var o := Admission(c, strict, raw, r);
      if Torn(raw) then o == Refused(TornTail)
      else if Lines(raw).None? then o == Refused(Invalid)
      else if strict && !AllRecords(c, lines) && KeysAgree(c, lines) then o == Refused(Invalid)
      else if strict && !AllRecords(c, lines) then o == Refused(Invalid) || o == Refused(Conflict)
      else if !KeysAgree(c, lines) then o == Refused(Conflict)
      else
        && (o == Added <==> forall k :: !Holding(c, lines, r.key, k))
        && (forall i | Holding(c, lines, r.key, i) ::
              o == if Record(c, lines[i]).value.identity == r.identity then Duplicate else Refused(Conflict))
  {
    if !Torn(raw) && Lines(raw).Some? {
      if Agree(c, strict, lines) {
        ReadIsAdmitted(c, strict, raw, r, lines);
      } else {
        UnreadIsRefused(c, strict, raw, r, lines);
      }
    }
  }

  // ---- runs with crashes ----------------------------------------------

  /** An append that may die after that many bytes of its frame. */
  datatype Call = Call(row: Row, crash: Option<nat>)

  function Cut(frame: seq<Byte>, n: nat): seq<Byte> {
    if n < |frame| then frame[..n] else frame
  }

  function Step(c: Codec, strict: bool, raw: seq<Byte>, call: Call): (seq<Byte>, Outcome) {
    var o := Admission(c, strict, raw, call.row);
    if !o.Added? then (raw, o)
    else if call.crash.None? then (raw + Frame(c.enc(call.row)), Added)
    else (raw + Cut(Frame(c.enc(call.row)), call.crash.value), Crashed)
  }

  type Stepper = (seq<Byte>, Call) -> (seq<Byte>, Outcome)

  function Outboxed(c: Codec, strict: bool): Stepper {
    (raw, call) => Step(c, strict, raw, call)
  }

  /** The file after the first `n` calls, and the answer to one of them. */
  function FileAt(step: Stepper, calls: seq<Call>, n: nat): seq<Byte>
    requires n <= |calls|
  {
    if n == 0 then [] else step(FileAt(step, calls, n - 1), calls[n - 1]).0
  }

  function AnswerTo(step: Stepper, calls: seq<Call>, i: nat): Outcome
    requires i < |calls|
  {
    step(FileAt(step, calls, i), calls[i]).1
  }

  /** The outbox its callers have in mind: the rows so far, until a torn write
      closes it.  `size` is the length of a row's frame. */
  datatype Table = Table(rows: seq<Row>, torn: bool)

  function TableStep(t: Table, call: Call, size: nat): (Table, Outcome) {
    var r, ids := call.row, IdsOfRows(t.rows);
    if t.torn then (t, Refused(TornTail))
    else if r.key in ids then (t, if ids[r.key] == r.identity then Duplicate else Refused(Conflict))
    else
      match call.crash
      case None => (t.(rows := t.rows + [r]), Added)
      case Some(n) =>
        if n == 0 then (t, Crashed)
        else if n < size then (t.(torn := true), Crashed)
        else (t.(rows := t.rows + [r]), Crashed)
  }

  function TableAt(size: Row -> nat, calls: seq<Call>, n: nat): Table
    requires n <= |calls|
  {
    if n == 0 then Table([], false) else TableStep(TableAt(size, calls, n - 1), calls[n - 1], size(calls[n - 1].row)).0
  }

  function TableAnswer(size: Row -> nat, calls: seq<Call>, i: nat): Outcome
    requires i < |calls|
  {
    TableStep(TableAt(size, calls, i), calls[i], size(calls[i].row)).1
  }

  function FrameSize(c: Codec): Row -> nat {
    r => |Frame(c.enc(r))|
  }

  /** An append that dies leaves the first bytes of its frame, and one that does
      not leaves all of them. */
  lemma CrashesLeaveAPrefix(c: Codec, strict: bool, raw: seq<Byte>, r: Row, n: nat)
    requires Admission(c, strict, raw, r).Added? && n <= |Frame(c.enc(r))|
    ensures Step(c, strict, raw, Call(r, Some(n))) == (raw + Frame(c.enc(r))[..n], Crashed)
    ensures Step(c, strict, raw, Call(r, None)) == (raw + Frame(c.enc(r)), Added)
  {
    assert Frame(c.enc(r))[..|Frame(c.enc(r))|] == Frame(c.enc(r));
  }

  // ---- the bytes refine the table -------------------------------------

  function Texts(c: Codec, rows: seq<Row>): (texts: seq<string>)
    ensures |texts| == |rows| && forall i | 0 <= i < |rows| :: texts[i] == c.enc(rows[i])
  {
    seq(|rows|, i requires 0 <= i < |rows| => c.enc(rows[i]))
  }

  function IdsOfRows(rows: seq<Row>): Ids {
    if rows == [] then map[]
    else IdsOfRows(rows[..|rows| - 1])[rows[|rows| - 1].key := rows[|rows| - 1].identity]
  }

  predicate DistinctKeys(rows: seq<Row>) {
    forall i, j | 0 <= i < j < |rows| :: rows[i].key != rows[j].key
  }

  /** The committed part of the file is the log of the rows, one for a key. */
  predicate Holds(c: Codec, raw: seq<Byte>, t: Table) {
    && Committed(raw) == EncodeLog(Texts(c, t.rows)) && (Torn(raw) <==> t.torn)
    && AllClean(Texts(c, t.rows)) && DistinctKeys(t.rows)
  }

  lemma {:induction false} KeysOfRows(rows: seq<Row>)
    ensures forall k :: k in IdsOfRows(rows) <==> exists i | 0 <= i < |rows| :: rows[i].key == k
  {
    if rows != [] {
      var front, last := rows[..|rows| - 1], rows[|rows| - 1];
      KeysOfRows(front);
      forall k ensures k in IdsOfRows(rows) <==> exists i | 0 <= i < |rows| :: rows[i].key == k {
        assert rows[|rows| - 1] == last;
        if k in IdsOfRows(front) {
          var i :| 0 <= i < |front| && front[i].key == k;
          assert rows[i] == front[i];
        }
        if i :| 0 <= i < |rows| && rows[i].key == k {
          assert i == |rows| - 1 || front[i] == rows[i];
        }
      }
    }
  }

  lemma {:induction false} ReadBack(c: Codec, strict: bool, rows: seq<Row>)
    requires Faithful(c) && DistinctKeys(rows)
    ensures IdsOf(c, strict, Texts(c, rows)) == Ok(IdsOfRows(rows))
  {
    if rows != [] {
      var front, last := rows[..|rows| - 1], rows[|rows| - 1];
      assert Texts(c, rows)[..|rows| - 1] == Texts(c, front);
      ReadBack(c, strict, front);
      KeysOfRows(front);
      assert forall i | 0 <= i < |front| :: front[i] == rows[i];
      assert last.key !in IdsOfRows(front);
    }
  }

  lemma HeldIsRead(c: Codec, strict: bool, raw: seq<Byte>, t: Table)
    requires Faithful(c) && Holds(c, raw, t)
    ensures Lines(raw) == Some(Texts(c, t.rows)) && Identities(c, strict, raw) == Ok(IdsOfRows(t.rows))
  {
    var texts := Texts(c, t.rows);
    assert JsonTexts(texts);
    LogRoundTrips(texts);
    LogIsCommitted(texts);
    assert Lines(raw) == Lines(EncodeLog(texts));
    ReadBack(c, strict, t.rows);
  }

  lemma MoreTexts(c: Codec, rows: seq<Row>, r: Row)
    ensures Texts(c, rows + [r]) == Texts(c, rows) + [c.enc(r)]
  {
  }

  lemma MoreKeys(rows: seq<Row>, r: Row)
    requires DistinctKeys(rows) && r.key !in IdsOfRows(rows)
    ensures DistinctKeys(rows + [r])
  {
    KeysOfRows(rows);
    forall i | 0 <= i < |rows| ensures rows[i].key != r.key {
      assert rows[i].key in IdsOfRows(rows);
    }
  }

  lemma MoreLog(texts: seq<string>, text: string)
    ensures EncodeLog(texts + [text]) == EncodeLog(texts) + Frame(text)
  {
    assert (texts + [text])[..|texts|] == texts;
  }

  lemma HeldWithFrame(c: Codec, raw: seq<Byte>, t: Table, r: Row)
    requires Faithful(c) && Holds(c, raw, t) && !t.torn && r.key !in IdsOfRows(t.rows) && Clean(c.enc(r))
    ensures Holds(c, raw + Frame(c.enc(r)), t.(rows := t.rows + [r]))
  {
    MoreTexts(c, t.rows, r);
    MoreKeys(t.rows, r);
    MoreLog(Texts(c, t.rows), c.enc(r));
    assert JsonTexts(Texts(c, t.rows + [r]));
    LogIsCommitted(Texts(c, t.rows + [r]));
  }

  lemma HeldWithCut(c: Codec, raw: seq<Byte>, t: Table, r: Row, n: nat)
    requires Faithful(c) && Holds(c, raw, t) && !t.torn && 0 < n < |Frame(c.enc(r))|
    ensures Holds(c, raw + Frame(c.enc(r))[..n], t.(torn := true))
  {
    assert JsonTexts(Texts(c, t.rows));
    TornIsFront(Texts(c, t.rows), c.enc(r), n);
  }

  lemma AdmissionIsTheTables(c: Codec, strict: bool, raw: seq<Byte>, t: Table, r: Row)
    requires Faithful(c) && Holds(c, raw, t)
    ensures Admission(c, strict, raw, r) ==
              if t.torn then Refused(TornTail)
              else if r.key !in IdsOfRows(t.rows) then Added
              else if IdsOfRows(t.rows)[r.key] == r.identity then Duplicate
              else Refused(Conflict)
  {
    HeldIsRead(c, strict, raw, t);
  }

  lemma AddedRefines(c: Codec, strict: bool, raw: seq<Byte>, t: Table, call: Call)
    requires Faithful(c) && Holds(c, raw, t) && Clean(c.enc(call.row)) && Admission(c, strict, raw, call.row).Added?
    requires !t.torn && call.row.key !in IdsOfRows(t.rows)
    ensures Holds(c, Step(c, strict, raw, call).0, TableStep(t, call, |Frame(c.enc(call.row))|).0)
  {
    var r, frame := call.row, Frame(c.enc(call.row));
    FrameIsSome(c.enc(r));
    if call.crash.None? || call.crash.value >= |frame| {
      HeldWithFrame(c, raw, t, r);
      assert Step(c, strict, raw, call).0 == raw + frame;
    } else if call.crash.value > 0 {
      HeldWithCut(c, raw, t, r, call.crash.value);
      assert Step(c, strict, raw, call).0 == raw + frame[..call.crash.value];
    } else {
      assert Step(c, strict, raw, call).0 == raw;
    }
  }

  lemma UnaddedStays(c: Codec, strict: bool, raw: seq<Byte>, call: Call)
    requires !Admission(c, strict, raw, call.row).Added?
    ensures Step(c, strict, raw, call) == (raw, Admission(c, strict, raw, call.row))
  {
  }

  lemma UnaddedTableStays(t: Table, call: Call, size: nat)
    requires t.torn || call.row.key in IdsOfRows(t.rows)
    ensures TableStep(t, call, size).0 == t
  {
  }

  lemma AddedAnswers(c: Codec, strict: bool, raw: seq<Byte>, t: Table, call: Call, size: nat)
    requires Admission(c, strict, raw, call.row).Added? && !t.torn && call.row.key !in IdsOfRows(t.rows)
    ensures Step(c, strict, raw, call).1 == TableStep(t, call, size).1
  {
  }

  lemma StepRefines(c: Codec, strict: bool, raw: seq<Byte>, t: Table, call: Call)
    requires Faithful(c) && Holds(c, raw, t) && Clean(c.enc(call.row))
    ensures Step(c, strict, raw, call).1 == TableStep(t, call, |Frame(c.enc(call.row))|).1
    ensures Holds(c, Step(c, strict, raw, call).0, TableStep(t, call, |Frame(c.enc(call.row))|).0)
  {
    var size := |Frame(c.enc(call.row))|;
    AdmissionIsTheTables(c, strict, raw, t, call.row);
    if Admission(c, strict, raw, call.row).Added? {
      AddedRefines(c, strict, raw, t, call);
      AddedAnswers(c, strict, raw, t, call, size);
    } else {
      UnaddedStays(c, strict, raw, call);
      UnaddedTableStays(t, call, size);
    }
  }

  /** A step on the file does what the step on the table does. */
  ghost predicate Simulates(step: Stepper, size: Row -> nat, related: (seq<Byte>, Table) -> bool, fit: Row -> bool) {
    && related([], Table([], false))
    && (forall raw, t, call: Call | related(raw, t) && fit(call.row) ::
          && step(raw, call).1 == TableStep(t, call, size(call.row)).1
          && related(step(raw, call).0, TableStep(t, call, size(call.row)).0))
  }

  lemma OutboxSimulates(c: Codec, strict: bool)
    requires Faithful(c)
    ensures Simulates(Outboxed(c, strict), FrameSize(c), (raw, t) => Holds(c, raw, t), r => Clean(c.enc(r)))
  {
    assert Texts(c, []) == [];
    forall raw, t, call: Call | Holds(c, raw, t) && Clean(c.enc(call.row))
      ensures Step(c, strict, raw, call).1 == TableStep(t, call, |Frame(c.enc(call.row))|).1
      ensures Holds(c, Step(c, strict, raw, call).0, TableStep(t, call, |Frame(c.enc(call.row))|).0)
    {
      StepRefines(c, strict, raw, t, call);
    }
  }

  lemma FrameIsSome(text: string)
    ensures |Frame(text)| > 0
  {
    var s := text + "\n";
    Utf8Front(s);
  }

  predicate CleanCalls(c: Codec, calls: seq<Call>) {
    forall i | 0 <= i < |calls| :: Clean(c.enc(calls[i].row))
  }

  lemma {:induction false} RunsRefine(step: Stepper, size: Row -> nat, related: (seq<Byte>, Table) -> bool, fit: Row -> bool,
                                      calls: seq<Call>, n: nat)
    requires Simulates(step, size, related, fit) && n <= |calls| && forall i | 0 <= i < |calls| :: fit(calls[i].row)
    ensures related(FileAt(step, calls, n), TableAt(size, calls, n))
    ensures forall i | 0 <= i < n :: AnswerTo(step, calls, i) == TableAnswer(size, calls, i)
  {
    if n > 0 {
      RunsRefine(step, size, related, fit, calls, n - 1);
    }
  }

  /** Over every sequence of appends, some of them cut short by a crash: the file
      holds the table's rows, and each append is answered as the table would. */
  lemma OutboxRefinesTable(c: Codec, strict: bool, calls: seq<Call>, n: nat)
    requires Faithful(c) && CleanCalls(c, calls) && n <= |calls|
    ensures Holds(c, FileAt(Outboxed(c, strict), calls, n), TableAt(FrameSize(c), calls, n))
    ensures forall i | 0 <= i < n :: AnswerTo(Outboxed(c, strict), calls, i) == TableAnswer(FrameSize(c), calls, i)
  {
    OutboxSimulates(c, strict);
    RunsRefine(Outboxed(c, strict), FrameSize(c), (raw, t) => Holds(c, raw, t), r => Clean(c.enc(r)), calls, n);
  }

  // ---- what the table promises ----------------------------------------

  lemma StepKeepsRows(t: Table, call: Call, size: nat)
    ensures t.rows <= TableStep(t, call, size).0.rows
    ensures t.torn ==> TableStep(t, call, size).0 == t
  {
  }

  /** Rows stay, and a torn table stays as it is. */
  lemma {:induction false} RowsStay(size: Row -> nat, calls: seq<Call>, i: nat, j: nat)
    requires i <= j <= |calls|
    ensures TableAt(size, calls, i).rows <= TableAt(size, calls, j).rows
    ensures TableAt(size, calls, i).torn ==> TableAt(size, calls, j) == TableAt(size, calls, i)
    decreases j - i
  {
    if i < j {
      RowsStay(size, calls, i, j - 1);
      StepKeepsRows(TableAt(size, calls, j - 1), calls[j - 1], size(calls[j - 1].row));
    }
  }

  /** A row whose append returned true is in every later table. */
  lemma AddedRowsStay(size: Row -> nat, calls: seq<Call>, i: nat, n: nat) returns (at: nat)
    requires i < n <= |calls| && TableAnswer(size, calls, i).Added?
    ensures at < |TableAt(size, calls, n).rows| && TableAt(size, calls, n).rows[at] == calls[i].row
  {
    at := |TableAt(size, calls, i).rows|;
    assert TableAt(size, calls, i + 1).rows == TableAt(size, calls, i).rows + [calls[i].row];
    RowsStay(size, calls, i + 1, n);
  }

  lemma {:induction false} IdsOfRow(rows: seq<Row>, i: nat)
    requires DistinctKeys(rows) && i < |rows|
    ensures rows[i].key in IdsOfRows(rows) && IdsOfRows(rows)[rows[i].key] == rows[i].identity
  {
    if i < |rows| - 1 {
      IdsOfRow(rows[..|rows| - 1], i);
    }
  }

  lemma AddedOnce(size: Row -> nat, calls: seq<Call>, i: nat, j: nat)
    requires i < j < |calls| && calls[i].row.key == calls[j].row.key && TableAnswer(size, calls, i).Added?
    requires DistinctKeys(TableAt(size, calls, j).rows)
    ensures TableAnswer(size, calls, j) ==
              if TableAt(size, calls, j).torn then Refused(TornTail)
              else if calls[i].row.identity == calls[j].row.identity then Duplicate
              else Refused(Conflict)
  {
    var at := AddedRowsStay(size, calls, i, j);
    IdsOfRow(TableAt(size, calls, j).rows, at);
  }

  /** After the append that returned true for a key, no other does: an equal one,
      whatever its creation time, is a duplicate, another is a conflict, and
      after a torn write everything is refused. */
  lemma AppendsAreExactlyOnce(c: Codec, strict: bool, calls: seq<Call>, i: nat, j: nat)
    requires Faithful(c) && CleanCalls(c, calls) && i < j < |calls| && calls[i].row.key == calls[j].row.key
    requires AnswerTo(Outboxed(c, strict), calls, i).Added?
    ensures AnswerTo(Outboxed(c, strict), calls, j) ==
              if Torn(FileAt(Outboxed(c, strict), calls, j)) then Refused(TornTail)
              else if calls[i].row.identity == calls[j].row.identity then Duplicate
              else Refused(Conflict)
  {
    OutboxRefinesTable(c, strict, calls, j);
    AnswerIsTheTables(c, strict, calls, i);
    AnswerIsTheTables(c, strict, calls, j);
    AddedOnce(FrameSize(c), calls, i, j);
  }

  lemma AnswerIsTheTables(c: Codec, strict: bool, calls: seq<Call>, i: nat)
    requires Faithful(c) && CleanCalls(c, calls) && i < |calls|
    ensures AnswerTo(Outboxed(c, strict), calls, i) == TableAnswer(FrameSize(c), calls, i)
  {
    OutboxRefinesTable(c, strict, calls, i + 1);
  }

  /** The rows a reader finds have distinct keys, and every row whose append
      returned true is among them. */
  lemma ReadersFindEveryRowOnce(c: Codec, strict: bool, calls: seq<Call>, i: nat) returns (rows: seq<Row>)
    requires Faithful(c) && CleanCalls(c, calls) && i < |calls|
    ensures Lines(FileAt(Outboxed(c, strict), calls, |calls|)) == Some(Texts(c, rows)) && DistinctKeys(rows)
    ensures AnswerTo(Outboxed(c, strict), calls, i).Added? ==> calls[i].row in rows
  {
    var t := TableAt(FrameSize(c), calls, |calls|);
    rows := t.rows;
    OutboxRefinesTable(c, strict, calls, |calls|);
    HeldIsRead(c, strict, FileAt(Outboxed(c, strict), calls, |calls|), t);
    AnswerIsTheTables(c, strict, calls, i);
    if TableAnswer(FrameSize(c), calls, i).Added? {
      var at := AddedRowsStay(FrameSize(c), calls, i, |calls|);
      assert calls[i].row in rows;
    }
  }

  // ---- separators that JSON does not escape ---------------------------

  /** A line that is no record. */
  predicate Unreadable(c: Codec, line: string) {
    Strip(line) == "" || c.dec(Strip(line)).None?
  }

  /** No line the record falls apart into is itself a record. */
  ghost predicate Shatters(c: Codec, r: Row) {
    forall line | line in SplitLines(c.enc(r) + "\n") :: Unreadable(c, line)
  }

  lemma {:induction false} ShardsAreSkipped(c: Codec, lines: seq<string>, shards: seq<string>)
    requires forall line | line in shards :: Unreadable(c, line)
    ensures IdsOf(c, false, lines + shards) == IdsOf(c, false, lines)
  {
    if shards == [] {
      assert lines + shards == lines;
    } else {
      assert shards[|shards| - 1] in shards;
      assert (lines + shards)[..|lines + shards| - 1] == lines + shards[..|shards| - 1];
      assert forall line | line in shards[..|shards| - 1] :: line in shards;
      ShardsAreSkipped(c, lines, shards[..|shards| - 1]);
    }
  }

  lemma LastByte(s: string)
    requires s != "" && Utf8(s)[|Utf8(s)| - 1] == 10
    ensures s[|s| - 1] == '\n'
  {
    var c := s[|s| - 1];
    assert Utf8Char(c)[|Utf8Char(c)| - 1] == 10;
    assert c as int == 10;
    assert '\n' as int == 10;
  }

  /** Whatever a file holds, if it can be appended to, the new record starts a
      line of its own. */
  lemma FrameStartsALine(c: Codec, raw: seq<Byte>, r: Row)
    requires Faithful(c) && !Torn(raw) && Lines(raw).Some?
    ensures !Torn(raw + Frame(c.enc(r)))
    ensures Lines(raw + Frame(c.enc(r))) == Some(Lines(raw).value + SplitLines(c.enc(r) + "\n"))
  {
    var text, line := Decode(raw).value, c.enc(r) + "\n";
    DecodingInvertsEncoding(raw, text);
    Utf8Joins(text, line);
    EncodedIsDecoded(text + line);
    FrameEnds(c.enc(r));
    EndedWhereCommitted(text);
    assert line[0] == c.enc(r)[0] && c.enc(r)[0] as int >= 0x20;
    SplitJoins(text, line);
  }

  lemma EndedWhereCommitted(text: string)
    requires !Torn(Utf8(text))
    ensures Ended(text)
  {
    if text != "" {
      Utf8Front(text);
      LastByte(text);
    }
  }

  lemma IdentitiesWithFrame(c: Codec, strict: bool, raw: seq<Byte>, r: Row)
    requires Faithful(c) && Admission(c, strict, raw, r).Added?
    ensures Lines(raw).Some? && !Torn(raw + Frame(c.enc(r)))
    ensures Identities(c, strict, raw + Frame(c.enc(r))) == IdsOf(c, strict, Lines(raw).value + SplitLines(c.enc(r) + "\n"))
  {
    FrameStartsALine(c, raw, r);
  }

  lemma OneMoreLine(c: Codec, strict: bool, lines: seq<string>, line: string)
    requires IdsOf(c, strict, lines).Ok?
    ensures IdsOf(c, strict, lines + [line]) == WithLine(c, strict, IdsOf(c, strict, lines).value, line)
  {
    assert (lines + [line])[..|lines|] == lines;
  }

  lemma CleanRowIsNoted(c: Codec, raw: seq<Byte>, r: Row)
    requires Faithful(c) && Clean(c.enc(r)) && Admission(c, false, raw, r).Added?
    ensures Admission(c, false, raw + Frame(c.enc(r)), r).Duplicate?
  {
    IdentitiesWithFrame(c, false, raw, r);
    LinesOfText(c.enc(r));
    OneMoreLine(c, false, Lines(raw).value, c.enc(r));
  }

  lemma SameIdentities(c: Codec, strict: bool, raw: seq<Byte>, now: seq<Byte>, r: Row)
    requires !Torn(raw) && !Torn(now) && Identities(c, strict, now) == Identities(c, strict, raw)
    ensures Admission(c, strict, now, r) == Admission(c, strict, raw, r)
  {
  }

  lemma ShatteredRowIsNothing(c: Codec, raw: seq<Byte>, r: Row)
    requires Faithful(c) && Shatters(c, r) && Admission(c, false, raw, r).Added?
    ensures !Torn(raw) && !Torn(raw + Frame(c.enc(r)))
    ensures Identities(c, false, raw + Frame(c.enc(r))) == Identities(c, false, raw)
  {
    IdentitiesWithFrame(c, false, raw, r);
    ShardsAreSkipped(c, Lines(raw).value, SplitLines(c.enc(r) + "\n"));
  }

  /** The skipping outbox, whatever is in its file, recognises a retry of the row
      it just wrote exactly when the row's JSON holds none of the separators.
      Otherwise the row changes no later answer. */
  lemma RetryIsRecognisedWhenClean(c: Codec, raw: seq<Byte>, r: Row, other: Row)
    requires Faithful(c) && (!Clean(c.enc(r)) ==> Shatters(c, r))
    requires Admission(c, false, raw, r).Added?
    ensures Admission(c, false, raw + Frame(c.enc(r)), r) == if Clean(c.enc(r)) then Duplicate else Added
    ensures !Clean(c.enc(r)) ==> Admission(c, false, raw + Frame(c.enc(r)), other) == Admission(c, false, raw, other)
  {
    if Clean(c.enc(r)) {
      CleanRowIsNoted(c, raw, r);
    } else {
      ShatteredRowIsNothing(c, raw, r);
      SameIdentities(c, false, raw, raw + Frame(c.enc(r)), r);
      SameIdentities(c, false, raw, raw + Frame(c.enc(r)), other);
    }
  }

  /** The file after one row was appended some times. */
  function Repeated(c: Codec, raw: seq<Byte>, r: Row, n: nat): seq<Byte> {
    if n == 0 then raw else Repeated(c, raw, r, n - 1) + Frame(c.enc(r))
  }

  /** Such a row is accepted over and over, and no append sees it. */
  lemma {:induction false} SeparatorRowIsForgotten(c: Codec, raw: seq<Byte>, r: Row, other: Row, n: nat)
    requires Faithful(c) && !Clean(c.enc(r)) && Shatters(c, r) && Admission(c, false, raw, r).Added?
    ensures Admission(c, false, Repeated(c, raw, r, n), r).Added?
    ensures Admission(c, false, Repeated(c, raw, r, n), other) == Admission(c, false, raw, other)
  {
    if n > 0 {
      SeparatorRowIsForgotten(c, raw, r, other, n - 1);
      RetryIsRecognisedWhenClean(c, Repeated(c, raw, r, n - 1), r, other);
    }
  }

  /** A record starts with ink, so its first shard is not blank. */
  lemma FirstShardHasInk(c: Codec, r: Row)
    requires Faithful(c)
    ensures SplitLines(c.enc(r) + "\n") != [] && Strip(SplitLines(c.enc(r) + "\n")[0]) != ""
  {
    var t := c.enc(r);
    StripTrims(t);
    assert !IsSpace(t[0]) && !Breaks(t[0]);
    LinesOfText(t);
    if !Clean(t) {
      SplitInside(t);
      InkStays(t[..FirstBreak(t, 0)]);
    }
  }

  lemma InkStays(s: string)
    requires s != "" && !IsSpace(s[0])
    ensures Strip(s) != ""
  {
    assert Lead(s, 0) == 0;
  }

  /** In the strict outbox, whatever is in its file, such a row closes the file to
      every later append. */
  lemma SeparatorClosesTheStrictOutbox(c: Codec, raw: seq<Byte>, r: Row, other: Row)
    requires Faithful(c) && Shatters(c, r) && Admission(c, true, raw, r).Added?
    ensures Admission(c, true, raw + Frame(c.enc(r)), other) == Refused(Invalid)
  {
    IdentitiesWithFrame(c, true, raw, r);
    FirstShardHasInk(c, r);
    var lines, shards := Lines(raw).value, SplitLines(c.enc(r) + "\n");
    assert shards[0] in shards;
    OneMoreLine(c, true, lines, shards[0]);
    FirstOfMore(lines, shards);
    IdsFail(c, true, lines + shards, |lines| + 1);
  }

  lemma FirstOfMore(lines: seq<string>, more: seq<string>)
    requires more != []
    ensures (lines + more)[..|lines| + 1] == lines + [more[0]]
  {
  }
}
