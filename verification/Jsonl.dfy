/**
Line files of JSON rows: how services/archive.py writes them and how
services/archive_import.py reads them back, one line at a time or by seeking to an offset.
*/
module Jsonl {
  import opened Wrappers

  /** A row type's printer and parser; a printed row is one line that is not blank. */
  datatype Codec<!R> = Codec(dump: R -> string, parse: string -> R)

  predicate BlankChar(c: char) {
    c == ' ' || '\t' <= c <= '\r'
  }

  /** `not raw.strip()`, for bytes. */
  predicate Blank(line: string) {
    forall i :: 0 <= i < |line| ==> BlankChar(line[i])
  }

  /** These rows print as lines that are not blank, and parse back to themselves. */
  ghost predicate Faithful<R(!new)>(c: Codec<R>, rows: seq<R>) {
    forall r :: r in rows ==> c.parse(c.dump(r) + "\n") == r && '\n' !in c.dump(r) && !Blank(c.dump(r))
  }

  /** The next newline at or after `from`, or the end. */
  function Newline(text: string, from: nat): (k: nat)
    requires from <= |text|
    ensures from <= k <= |text|
    decreases |text| - from
  {
    if from == |text| || text[from] == '\n' then from else Newline(text, from + 1)
  }

  /** The first line, with its newline if it has one. */
  function FirstLine(text: string): (line: string)
    ensures line <= text && (text != "" ==> line != "")
  {
    var k := Newline(text, 0);
    if k == |text| then text else text[..k + 1]
  }

  /** The rows a reader yields. */
  function Rows<R>(c: Codec<R>, text: string): seq<R>
    decreases |text|
  {
    if text == "" then []
    else
      var line := FirstLine(text);
      (if Blank(line) then [] else [c.parse(line)]) + Rows(c, text[|line|..])
  }

  /** The bytes a writer appends. */
  function Written<R>(c: Codec<R>, rows: seq<R>): string {
    if rows == [] then "" else Written(c, rows[..|rows| - 1]) + c.dump(rows[|rows| - 1]) + "\n"
  }

  lemma {:induction false} NewlineAt(text: string, from: nat, k: nat)
    requires from <= k < |text| && text[k] == '\n' && forall i :: from <= i < k ==> text[i] != '\n'
    ensures Newline(text, from) == k
    decreases k - from
  {
    if from < k {
      NewlineAt(text, from + 1, k);
    }
  }

  lemma {:induction false} FirstLineStops(head: string, rest: string)
    requires '\n' !in head
    ensures FirstLine(head + "\n" + rest) == head + "\n"
  {
    var text := head + "\n" + rest;
    assert forall i :: 0 <= i < |head| ==> text[i] == head[i];
    NewlineAt(text, 0, |head|);
  }

  lemma {:induction false} LineWithoutNewline(line: string)
    requires '\n' !in line
    ensures FirstLine(line) == line
  {
    NoNewline(line, 0);
  }

  lemma {:induction false} NoNewline(line: string, from: nat)
    requires from <= |line| && '\n' !in line
    ensures Newline(line, from) == |line|
    decreases |line| - from
  {
    if from < |line| {
      assert line[from] in line;
      NoNewline(line, from + 1);
    }
  }

  /** The rows of a text are those of its lines, one each, but for the blank ones; the last line may lack its end. */
  lemma {:induction false} RowsAreTheLines<R>(c: Codec<R>, line: string, rest: string)
    requires '\n' !in line
    ensures Rows(c, line + "\n" + rest) == (if Blank(line) then [] else [c.parse(line + "\n")]) + Rows(c, rest)
    ensures Rows(c, line) == if Blank(line) then [] else [c.parse(line)]
  {
    var whole := line + "\n";
    FirstLineStops(line, rest);
    assert (whole + rest)[|whole|..] == rest;
    assert Blank(whole) <==> Blank(line) by {
      assert forall i :: 0 <= i < |line| ==> whole[i] == line[i];
    }
    LineWithoutNewline(line);
    if line != "" {
      assert line[|line|..] == "" && Rows(c, "") == [];
    }
  }

  lemma {:induction false} PrintedRowIsRead<R(!new)>(c: Codec<R>, row: R, rest: string)
    requires Faithful(c, [row])
    ensures Rows(c, c.dump(row) + "\n" + rest) == [row] + Rows(c, rest)
  {
    var line := c.dump(row) + "\n";
    assert row in [row];
    FirstLineStops(c.dump(row), rest);
    var i :| 0 <= i < |c.dump(row)| && !BlankChar(c.dump(row)[i]);
    assert line[i] == c.dump(row)[i];
    assert (line + rest)[|line|..] == rest;
  }

  lemma {:induction false} WrittenSplit<R>(c: Codec<R>, rows: seq<R>, rest: string)
    requires rows != []
    ensures Written(c, rows) + rest == Written(c, rows[..|rows| - 1]) + (c.dump(rows[|rows| - 1]) + "\n" + rest)
  {
  }

  lemma {:induction false} Reassociate<R>(rows: seq<R>, later: seq<R>)
    requires rows != []
    ensures rows[..|rows| - 1] + ([rows[|rows| - 1]] + later) == rows + later
  {
  }

  lemma {:induction false} ReadsBackBefore<R(!new)>(c: Codec<R>, rows: seq<R>, rest: string)
    requires Faithful(c, rows)
    ensures Rows(c, Written(c, rows) + rest) == rows + Rows(c, rest)
  {
    if rows == [] {
      assert Written(c, rows) + rest == rest;
    } else {
      var head, last := rows[..|rows| - 1], rows[|rows| - 1];
      assert Faithful(c, head) && Faithful(c, [last]);
      var tail := c.dump(last) + "\n" + rest;
      calc {
        Rows(c, Written(c, rows) + rest);
        { WrittenSplit(c, rows, rest); }
        Rows(c, Written(c, head) + tail);
        { ReadsBackBefore(c, head, tail); }
        head + Rows(c, tail);
        { PrintedRowIsRead(c, last, rest); }
        head + ([last] + Rows(c, rest));
        { Reassociate(rows, Rows(c, rest)); }
        rows + Rows(c, rest);
      }
    }
  }

  /** Every row written is read back, in order, and nothing else. */
  lemma {:induction false} FileRoundTrip<R(!new)>(c: Codec<R>, rows: seq<R>)
    requires Faithful(c, rows)
    ensures Rows(c, Written(c, rows)) == rows
  {
    ReadsBackBefore(c, rows, "");
    assert Written(c, rows) + "" == Written(c, rows);
    assert rows + [] == rows;
  }

  ghost function IndexOf<R>(rows: seq<R>, row: R): (i: nat)
    ensures row in rows ==> i < |rows| && rows[i] == row
  {
    if rows == [] || rows[0] == row then 0 else 1 + IndexOf(rows[1..], row)
  }

  /** Whatever the rows are, some printer and parser carries them. */
  lemma {:induction false} SomeCodecIsFaithful<R(!new)>(rows: seq<R>, otherwise: R) returns (c: Codec<R>)
    ensures Faithful(c, rows)
  {
    c := Codec(r => seq(IndexOf(rows, r) + 1, _ => '.'),
               s => if 2 <= |s| <= |rows| + 1 then rows[|s| - 2] else otherwise);
    forall r | r in rows ensures c.parse(c.dump(r) + "\n") == r && '\n' !in c.dump(r) && !Blank(c.dump(r)) {
      assert |c.dump(r)| == IndexOf(rows, r) + 1 && c.dump(r)[0] == '.';
    }
  }

  lemma {:induction false} LineByLine<R>(c: Codec<R>, rest: string)
    requires rest != ""
    ensures var line := FirstLine(rest);
            Rows(c, rest) == (if Blank(line) then [] else [c.parse(line)]) + Rows(c, rest[|line|..])
  {
  }

  /** `_next_row` on a handle that has `rest` left to read: skip blank lines, return a row and what is left after it. */
  method NextRow<R>(c: Codec<R>, rest: string) returns (row: Option<R>, left: string)
    ensures row.None? ==> Rows(c, rest) == []
    ensures row.Some? ==> |left| < |rest| && Rows(c, rest) == [row.value] + Rows(c, left)
  {
    left := rest;
    while left != ""
      invariant |left| <= |rest| && Rows(c, rest) == Rows(c, left)
      decreases |left|
    {
      var raw := FirstLine(left);
      LineByLine(c, left);
      left := left[|raw|..];
      if !Blank(raw) {
        return Some(c.parse(raw)), left;
      }
    }
    row := None;
  }

  /** The rows together with the offset of the line each was read from. */
  function Located<R>(c: Codec<R>, text: string, base: nat): seq<(R, nat)>
    decreases |text|
  {
    if text == "" then []
    else
      var line := FirstLine(text);
      (if Blank(line) then [] else [(c.parse(line), base)]) + Located(c, text[|line|..], base + |line|)
  }

  lemma {:induction false} LocatedLine<R>(c: Codec<R>, rest: string, base: nat)
    requires rest != ""
    ensures var line := FirstLine(rest);
            Located(c, rest, base)
            == (if Blank(line) then [] else [(c.parse(line), base)]) + Located(c, rest[|line|..], base + |line|)
  {
  }

  /** Reading one line from `d` on gives `row`. */
  predicate ReadAt<R(==)>(c: Codec<R>, text: string, d: int, row: R) {
    0 <= d <= |text| && c.parse(FirstLine(text[d..])) == row
  }

  lemma {:induction false} ReadAtStart<R>(c: Codec<R>, text: string)
    ensures ReadAt(c, text, 0, c.parse(FirstLine(text)))
  {
    assert text[0..] == text;
  }

  lemma {:induction false} ReadLater<R>(c: Codec<R>, text: string, skipped: nat, d: int, row: R)
    requires skipped <= |text| && ReadAt(c, text[skipped..], d, row)
    ensures ReadAt(c, text, skipped + d, row)
  {
    assert text[skipped..][d..] == text[skipped + d..];
  }

  /** Each entry is read at its offset. */
  ghost predicate AllReadAt<R>(c: Codec<R>, text: string, base: nat, entries: seq<(R, nat)>) {
    entries == [] || (ReadAt(c, text, entries[0].1 - base, entries[0].0) && AllReadAt(c, text, base, entries[1..]))
  }

  lemma {:induction false} EachReadAt<R>(c: Codec<R>, text: string, base: nat, entries: seq<(R, nat)>, i: nat)
    requires AllReadAt(c, text, base, entries) && i < |entries|
    ensures ReadAt(c, text, entries[i].1 - base, entries[i].0)
  {
    if i > 0 {
      EachReadAt(c, text, base, entries[1..], i - 1);
    }
  }

  lemma {:induction false} AllReadLater<R>(c: Codec<R>, text: string, skipped: nat, base: nat, entries: seq<(R, nat)>)
    requires skipped <= |text| && AllReadAt(c, text[skipped..], base + skipped, entries)
    ensures AllReadAt(c, text, base, entries)
  {
    if entries != [] {
      ReadLater(c, text, skipped, entries[0].1 - (base + skipped), entries[0].0);
      AllReadLater(c, text, skipped, base, entries[1..]);
    }
  }

  lemma {:induction false} AllReadFromTheStart<R>(c: Codec<R>, text: string, base: nat, row: R, later: seq<(R, nat)>)
    requires ReadAt(c, text, 0, row) && AllReadAt(c, text, base, later)
    ensures AllReadAt(c, text, base, [(row, base)] + later)
  {
    assert ([(row, base)] + later)[1..] == later;
  }

  lemma {:induction false} LineAndRest<R>(c: Codec<R>, text: string, base: nat, line: string, rest: string,
                                          later: seq<(R, nat)>)
    requires line == FirstLine(text) && rest == text[|line|..] && AllReadAt(c, rest, base + |line|, later)
    ensures AllReadAt(c, text, base, (if Blank(line) then [] else [(c.parse(line), base)]) + later)
  {
    AllReadLater(c, text, |line|, base, later);
    if Blank(line) {
      assert [] + later == later;
    } else {
      ReadAtStart(c, text);
      AllReadFromTheStart(c, text, base, c.parse(line), later);
    }
  }

  /** Seeking to a recorded offset and reading one line gives the row found there before. */
  lemma {:induction false} OffsetsLocateRows<R>(c: Codec<R>, text: string, base: nat)
    ensures AllReadAt(c, text, base, Located(c, text, base))
    decreases |text|
  {
    if text != "" {
      var line := FirstLine(text);
      var rest := text[|line|..];
      OffsetsLocateRows(c, rest, base + |line|);
      LineAndRest(c, text, base, line, rest, Located(c, rest, base + |line|));
      LocatedLine(c, text, base);
    }
  }

  lemma {:induction false} LocatedRowsAreTheRows<R>(c: Codec<R>, text: string, base: nat, i: nat)
    requires i < |Located(c, text, base)|
    ensures |Located(c, text, base)| == |Rows(c, text)| && Located(c, text, base)[i].0 == Rows(c, text)[i]
    decreases |text|
  {
    var line := FirstLine(text);
    LineByLine(c, text);
    LocatedLine(c, text, base);
    LocatedCount(c, text, base);
    if Blank(line) {
      LocatedRowsAreTheRows(c, text[|line|..], base + |line|, i);
    } else if i > 0 {
      LocatedRowsAreTheRows(c, text[|line|..], base + |line|, i - 1);
    }
  }

  lemma {:induction false} LocatedCount<R>(c: Codec<R>, text: string, base: nat)
    ensures |Located(c, text, base)| == |Rows(c, text)|
    decreases |text|
  {
    if text != "" {
      var line := FirstLine(text);
      var later := text[|line|..];
      LocatedCount(c, later, base + |line|);
      LineByLine(c, text);
      LocatedLine(c, text, base);
    }
  }
}
