/** The Markdown text `save_to_markdown` writes for a list of records. */
module MarkdownReport {
  import opened PyJson
  import opened NoteCollector

  const Header := "# XMind Notes 提取结果\n\n"
  const Rule := "---\n\n"

  function DigitChar(d: nat): char
    requires d < 10
  {
    "0123456789"[d]
  }

  predicate IsDigits(s: string) {
    forall i | 0 <= i < |s| :: '0' <= s[i] <= '9'
  }

  /** Python's `str` of a non-negative integer: decimal digits without leading zeros. */
  function NatToString(n: nat): (s: string)
    ensures s != [] && IsDigits(s)
    ensures s[0] == '0' ==> n == 0
    decreases n
  {
    if n < 10 then [DigitChar(n)] else NatToString(n / 10) + [DigitChar(n % 10)]
  }

  /** The number a string of decimal digits denotes. */
  function DigitsValue(s: string): nat
    requires IsDigits(s)
    decreases |s|
  {
    if s == [] then 0 else 10 * DigitsValue(s[..|s| - 1]) + (s[|s| - 1] - '0') as nat
  }

  /** Reading the count back gives the count. */
  lemma {:induction false} NatToStringValue(n: nat)
    ensures DigitsValue(NatToString(n)) == n
    decreases n
  {
    if n >= 10 {
      var s := NatToString(n);
      NatToStringValue(n / 10);
      assert s[..|s| - 1] == NatToString(n / 10);
    }
  }

  function SourceLine(sourceName: string): string {
    "**文件来源**: " + sourceName + "\n\n"
  }

  function CountLine(count: nat): string {
    "**提取到的Notes数量**: " + NatToString(count) + "\n\n"
  }

  /** The header, the source and count lines and the first rule. */
  function Preamble(sourceName: string, count: nat): string {
    Header + SourceLine(sourceName) + CountLine(count) + Rule
  }

  /** The lines written for the record numbered `index`: title and notes with nothing between. */
  function Entry(index: nat, r: Record): string {
    NatToString(index) + ". " + r.title + r.notes + "\n\n" + Rule
  }

  /** The entries of `records`, numbered from `first`. */
  function Entries(records: seq<Record>, first: nat): string
    decreases |records|
  {
    if records == [] then "" else Entry(first, records[0]) + Entries(records[1..], first + 1)
  }

  lemma DigitsNoShorter(d1: string, x: string, d2: string, y: string)
    requires IsDigits(d2)
    requires x != [] && !('0' <= x[0] <= '9')
    requires d1 + x == d2 + y
    ensures |d1| >= |d2|
  {
    var s := d1 + x;
    assert s[|d1|] == x[0];
    assert forall k | 0 <= k < |d2| :: s[k] == d2[k];
  }

  /** Digits followed by a non-digit: the digits are determined by the whole string. */
  lemma DigitsThenNonDigit(d1: string, x: string, d2: string, y: string)
    requires IsDigits(d1) && IsDigits(d2)
    requires x != [] && !('0' <= x[0] <= '9') && y != [] && !('0' <= y[0] <= '9')
    requires d1 + x == d2 + y
    ensures d1 == d2 && x == y
  {
    var s := d1 + x;
    DigitsNoShorter(d1, x, d2, y);
    DigitsNoShorter(d2, y, d1, x);
    if |d1| == |d2| {
      assert d1 == s[..|d1|] == d2;
      assert x == s[|d1|..] == y;
    }
  }

  /** The count line of the report determines the count: different numbers of records never
      give the same preamble. */
  lemma PreambleDeterminesCount(sourceName: string, a: nat, b: nat)
    ensures Preamble(sourceName, a) == Preamble(sourceName, b) ==> a == b
  {
    if Preamble(sourceName, a) == Preamble(sourceName, b) {
      var head := Header + SourceLine(sourceName) + "**提取到的Notes数量**: ";
      var tail := "\n\n" + Rule;
      assert Preamble(sourceName, a) == head + (NatToString(a) + tail);
      assert Preamble(sourceName, b) == head + (NatToString(b) + tail);
      assert NatToString(a) + tail == Preamble(sourceName, a)[|head|..];
      assert NatToString(b) + tail == Preamble(sourceName, b)[|head|..];
      DigitsThenNonDigit(NatToString(a), tail, NatToString(b), tail);
      NatToStringValue(a);
      NatToStringValue(b);
    }
  }

  /** An entry determines its number and the text written after it (title and notes run
      together): a title starting with digits cannot be mistaken for part of the number. */
  lemma EntryDeterminesNumber(i: nat, r1: Record, j: nat, r2: Record)
    ensures Entry(i, r1) == Entry(j, r2) ==> i == j && r1.title + r1.notes == r2.title + r2.notes
  {
    if Entry(i, r1) == Entry(j, r2) {
      var tail := "\n\n" + Rule;
      var rest1 := ". " + (r1.title + r1.notes) + tail;
      var rest2 := ". " + (r2.title + r2.notes) + tail;
      assert Entry(i, r1) == NatToString(i) + rest1;
      assert Entry(j, r2) == NatToString(j) + rest2;
      DigitsThenNonDigit(NatToString(i), rest1, NatToString(j), rest2);
      NatToStringValue(i);
      NatToStringValue(j);
      assert r1.title + r1.notes == rest1[2..|rest1| - |tail|];
      assert r2.title + r2.notes == rest2[2..|rest2| - |tail|];
    }
  }

  /** `save_to_markdown(path, notes_data)`: `None` when there is nothing to write
      (it returns False), otherwise the text of the file; `sourceName` is the base name
      of the document's path. */
  function Render(sourceName: string, records: seq<Record>): (text: Option<string>)
    ensures text.None? <==> records == []
    ensures text.Some? ==> Preamble(sourceName, |records|) <= text.value
  {
    if records == [] then None else Some(Preamble(sourceName, |records|) + Entries(records, 1))
  }

  /** Entries of consecutive runs of records follow one another, numbered on. */
  lemma {:induction false} EntriesAppend(xs: seq<Record>, ys: seq<Record>, first: nat)
    ensures Entries(xs + ys, first) == Entries(xs, first) + Entries(ys, first + |xs|)
    decreases |xs|
  {
    if xs == [] {
      assert xs + ys == ys;
    } else {
      assert (xs + ys)[0] == xs[0];
      assert (xs + ys)[1..] == xs[1..] + ys;
      EntriesAppend(xs[1..], ys, first + 1);
    }
  }

  /** The record at position `i` is written as entry number `i + 1`, right after the
      entries of the records before it. */
  lemma RenderedEntryAt(sourceName: string, records: seq<Record>, i: nat)
    requires i < |records|
    ensures Render(sourceName, records).Some?
    ensures Preamble(sourceName, |records|) + Entries(records[..i], 1) + Entry(i + 1, records[i])
            <= Render(sourceName, records).value
    ensures i == |records| - 1 ==>
      Preamble(sourceName, |records|) + Entries(records[..i], 1) + Entry(i + 1, records[i])
      == Render(sourceName, records).value
  {
    var tail := [records[i]] + records[i + 1..];
    assert records == records[..i] + tail;
    EntriesAppend(records[..i], tail, 1);
    assert tail[0] == records[i] && tail[1..] == records[i + 1..];
    PrefixOfSum(Preamble(sourceName, |records|), Entries(records[..i], 1),
                Entry(i + 1, records[i]), Entries(records[i + 1..], i + 2));
    if i == |records| - 1 {
      var text := Preamble(sourceName, |records|) + Entries(records[..i], 1) + Entry(i + 1, records[i]);
      assert Entries(records[i + 1..], i + 2) == "";
      assert Render(sourceName, records).value == text + "";
    }
  }

  lemma PrefixOfSum(a: string, b: string, c: string, d: string)
    ensures a + b + c <= a + (b + (c + d))
  {
    assert a + (b + (c + d)) == (a + b + c) + d;
  }

  /** Title and notes are written with nothing between them, so two different records
      can produce the same entry. */
  lemma EntryJoinsTitleAndNotes()
    ensures Entry(1, Record("Root > A", "bc")) == Entry(1, Record("Root > Ab", "c"))
  {
    assert "Root > A" + "bc" == "Root > Ab" + "c";
  }
}
