/**
The checksum member of an archive: one line for each member, its digest, two spaces and its
name, as services/archive.py writes them and services/archive_import.py reads them back.
*/
module ChecksumFile {
  import opened Jsonl
  import T = Text

  /** A digest with the member it belongs to. */
  type Entry = (string, string)

  const SEPARATOR := "  "

  function EntryLine(e: Entry): string {
    e.0 + SEPARATOR + e.1
  }

  /** Where two spaces first stand together, or the end. */
  function Gap(line: string): (i: nat)
    ensures i <= |line| && (i == |line| || i + 2 <= |line|)
  {
    if |line| < 2 then |line|
    else if line[..2] == SEPARATOR then 0
    else 1 + Gap(line[1..])
  }

  /** `line.partition("  ")`, both ends stripped. */
  function ParseEntry(line: string): Entry {
    var i := Gap(line);
    (T.Strip(line[..i]), if i == |line| then "" else T.Strip(line[i + 2..]))
  }

  const ENTRIES := Codec(EntryLine, ParseEntry)

  /** Printable characters without spaces. */
  predicate Word(s: string) {
    forall i :: 0 <= i < |s| ==> '!' <= s[i] <= '~'
  }

  /** Digests and names of plain words, as hexadecimal digits and member names are. */
  predicate PlainListing(listing: seq<Entry>) {
    forall i :: 0 <= i < |listing| ==> Word(listing[i].0) && Word(listing[i].1) && listing[i].1 != ""
  }

  lemma {:induction false} GapAfterWord(word: string, rest: string)
    requires Word(word)
    ensures Gap(word + (SEPARATOR + rest)) == |word|
  {
    var line := word + (SEPARATOR + rest);
    if word == "" {
      assert line == SEPARATOR + rest && line[..2] == SEPARATOR;
    } else {
      assert line[1..] == word[1..] + (SEPARATOR + rest);
      GapAfterWord(word[1..], rest);
      assert line[..2][0] == word[0] != ' ';
    }
  }

  lemma {:induction false} WordsAreStripped(word: string)
    requires Word(word)
    ensures T.Strip(word) == word && (word != "" ==> T.Strip(word + "\n") == word)
  {
    if word != "" {
      assert !T.IsSpace(word[0]) && !T.IsSpace(word[|word| - 1]);
      assert (word + "\n")[..|word|] == word;
      assert T.LeftStripped(word + "\n") == word + "\n";
      assert T.RightStripped(word + "\n") == T.RightStripped(word);
    }
  }

  lemma {:induction false} PartedAtTheGap(word: string, rest: string)
    requires Word(word)
    ensures ParseEntry(word + (SEPARATOR + rest)) == (T.Strip(word), T.Strip(rest))
  {
    var line := word + (SEPARATOR + rest);
    GapAfterWord(word, rest);
    assert line[..|word|] == word && line[|word| + 2..] == rest;
  }

  lemma {:induction false} Regrouped(a: string, b: string, c: string, d: string)
    ensures a + b + c + d == a + (b + (c + d))
  {
  }

  lemma {:induction false} EntryReadsBack(e: Entry)
    requires Word(e.0) && Word(e.1) && e.1 != ""
    ensures ParseEntry(EntryLine(e) + "\n") == e
  {
    WordsAreStripped(e.0);
    WordsAreStripped(e.1);
    PartedAtTheGap(e.0, e.1 + "\n");
    Regrouped(e.0, SEPARATOR, e.1, "\n");
  }

  lemma {:induction false} EntryIsOneLine(e: Entry)
    requires Word(e.0) && Word(e.1) && e.1 != ""
    ensures '\n' !in EntryLine(e) && !Blank(EntryLine(e))
  {
    assert EntryLine(e)[|e.0| + 2] == e.1[0];
  }

  /** A listing of plain words is read back as it was written. */
  lemma {:induction false} ListingRoundTrip(listing: seq<Entry>)
    requires PlainListing(listing)
    ensures Rows(ENTRIES, Written(ENTRIES, listing)) == listing
  {
    forall e | e in listing
      ensures ENTRIES.parse(ENTRIES.dump(e) + "\n") == e && '\n' !in ENTRIES.dump(e) && !Blank(ENTRIES.dump(e))
    {
      EntryReadsBack(e);
      EntryIsOneLine(e);
    }
    FileRoundTrip(ENTRIES, listing);
  }
}
