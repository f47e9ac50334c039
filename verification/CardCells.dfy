/** Cells of the card table that list counted entries: the printer, the two parsers and the
    counter that reads the same cells. */
module CardCells {
  import opened Wrappers
  import opened Decimals

  /** A label with a count; the count of an uncertain entry is a placeholder. */
  datatype Entry = Entry(item: string, count: int, uncertain: bool)

  // ----- text --------------------------------------------------------------------------

  /** The characters that stripping removes. */
  predicate IsSpace(c: char) {
    var n := c as int;
    9 <= n <= 13 || 28 <= n <= 32 || n == 0x85 || n == 0xA0 || n == 0x1680 || 0x2000 <= n <= 0x200A
    || n == 0x2028 || n == 0x2029 || n == 0x202F || n == 0x205F || n == 0x3000
  }

  function StripLeft(s: string): string {
    if s != "" && IsSpace(s[0]) then StripLeft(s[1..]) else s
  }

  function StripRight(s: string): string {
    if s != "" && IsSpace(s[|s| - 1]) then StripRight(s[..|s| - 1]) else s
  }

  function Strip(s: string): string {
    StripRight(StripLeft(s))
  }

  lemma {:induction false} StripLeftStart(s: string)
    ensures StripLeft(s) != "" ==> !IsSpace(StripLeft(s)[0])
    ensures forall i :: 0 <= i < |StripLeft(s)| ==> StripLeft(s)[i] in s
  {
    if s != "" && IsSpace(s[0]) {
      StripLeftStart(s[1..]);
    }
  }

  lemma {:induction false} StripRightStart(s: string)
    requires s != "" ==> !IsSpace(s[0])
    ensures StripRight(s) != "" ==> !IsSpace(StripRight(s)[0])
    ensures forall i :: 0 <= i < |StripRight(s)| ==> StripRight(s)[i] in s
  {
    if s != "" && IsSpace(s[|s| - 1]) {
      StripRightStart(s[..|s| - 1]);
    }
  }

  /** Stripped text starts with no space, and has only characters of the text. */
  lemma StripStart(s: string)
    ensures Strip(s) != "" ==> !IsSpace(Strip(s)[0])
    ensures forall i :: 0 <= i < |Strip(s)| ==> Strip(s)[i] in s
  {
    StripLeftStart(s);
    StripRightStart(StripLeft(s));
  }

  /** The parts between semicolons; always at least one. */
  function Split(s: string): (r: seq<string>)
    ensures r != []
  {
    if s == "" then [""]
    else
      var rest := Split(s[1..]);
      if s[0] == ';' then [""] + rest else [[s[0]] + rest[0]] + rest[1..]
  }

  function Join(parts: seq<string>): string {
    if parts == [] then "" else if |parts| == 1 then parts[0] else parts[0] + ";" + Join(parts[1..])
  }

  lemma {:induction false} SplitHasNoSemicolon(s: string, k: nat)
    requires k < |Split(s)|
    ensures ';' !in Split(s)[k]
  {
    if s != "" {
      if s[0] == ';' {
        if k > 0 {
          SplitHasNoSemicolon(s[1..], k - 1);
        }
      } else {
        SplitHasNoSemicolon(s[1..], k);
      }
    }
  }

  lemma {:induction false} SplitOfPrefix(a: string, rest: string)
    requires ';' !in a
    ensures Split(a + ";" + rest) == [a] + Split(rest)
    decreases |a|
  {
    var s := a + ";" + rest;
    if a == "" {
      assert s[1..] == rest;
    } else {
      assert s[0] == a[0] && s[1..] == a[1..] + ";" + rest;
      SplitOfPrefix(a[1..], rest);
      assert a == [a[0]] + a[1..];
    }
  }

  lemma {:induction false} SplitOfOne(a: string)
    requires ';' !in a
    ensures Split(a) == [a]
  {
    if a != "" {
      SplitOfOne(a[1..]);
      assert a == [a[0]] + a[1..];
    }
  }

  /** Splitting undoes joining. */
  lemma {:induction false} SplitOfJoin(parts: seq<string>)
    requires parts != [] && forall i :: 0 <= i < |parts| ==> ';' !in parts[i]
    ensures Split(Join(parts)) == parts
    decreases |parts|
  {
    if |parts| == 1 {
      SplitOfOne(parts[0]);
    } else {
      SplitOfJoin(parts[1..]);
      SplitOfPrefix(parts[0], Join(parts[1..]));
      assert parts == [parts[0]] + parts[1..];
    }
  }

  // ----- printing ----------------------------------------------------------------------

  function PrintCount(e: Entry): string {
    PrintInt(e.count) + if e.uncertain then "?" else ""
  }

  function PrintEntry(e: Entry): string {
    e.item + ":" + PrintCount(e)
  }

  function PrintParts(entries: seq<Entry>): (r: seq<string>)
    ensures |r| == |entries| && forall i :: 0 <= i < |r| ==> r[i] == PrintEntry(entries[i])
  {
    seq(|entries|, i requires 0 <= i < |entries| => PrintEntry(entries[i]))
  }

  function PrintCell(entries: seq<Entry>): string {
    Join(PrintParts(entries))
  }

  /** The printer's loop. */
  method FormatCell(entries: seq<Entry>) returns (cell: string)
    ensures cell == PrintCell(entries)
  {
    var parts: seq<string> := [];
    for i := 0 to |entries|
      invariant parts == PrintParts(entries)[..i]
    {
      var e := entries[i];
      var count := PrintInt(e.count) + if e.uncertain then "?" else "";
      assert count == PrintCount(e);
      parts := parts + [e.item + ":" + count];
    }
    assert parts == PrintParts(entries);
    cell := Join(parts);
  }

  predicate CountChar(c: char) {
    IsDigit(c) || c == '-' || c == '?'
  }

  /** A printed count has only digits, a sign and a question mark. */
  lemma CountChars(e: Entry)
    ensures PrintCount(e) != "" && forall i :: 0 <= i < |PrintCount(e)| ==> CountChar(PrintCount(e)[i])
    ensures forall c :: c in PrintCount(e) ==> CountChar(c)
  {
  }

  // ----- parsing -----------------------------------------------------------------------

  function FirstColon(s: string): (i: nat)
    ensures i <= |s| && (i < |s| ==> s[i] == ':')
    ensures forall j :: 0 <= j < i ==> s[j] != ':'
  {
    if s == "" || s[0] == ':' then 0
    else
      var i := 1 + FirstColon(s[1..]);
      assert forall j :: 0 < j < i ==> s[j] == s[1..][j - 1];
      i
  }

  /** One past the last colon; zero when there is none. */
  function PastLastColon(s: string): (i: nat)
    ensures i <= |s| && (i > 0 ==> s[i - 1] == ':')
    ensures forall j :: i <= j < |s| ==> s[j] != ':'
  {
    if s == "" then 0
    else if s[|s| - 1] == ':' then |s|
    else PastLastColon(s[..|s| - 1])
  }

  /** A count with its mark of uncertainty; nothing when it is no integer. */
  function ReadCount(item: string, rest: string): Option<Entry> {
    var uncertain := rest != "" && rest[|rest| - 1] == '?';
    var value := ReadInt(if uncertain then rest[..|rest| - 1] else rest);
    if value.None? then None else Some(Entry(item, value.value, uncertain))
  }

  /** One part of a created-card cell splits at its first colon. */
  function ReadCreated(part: string): Option<Entry> {
    var i := FirstColon(part);
    ReadCount(part[..i], if i < |part| then part[i + 1..] else "")
  }

  /** One part of a pool cell splits at its last colon, and needs a label before it. */
  function ReadPool(part: string): Option<Entry> {
    var i := PastLastColon(part);
    if i <= 1 then None else ReadCount(part[..i - 1], part[i..])
  }

  function ReadPart(part: string, pool: bool): Option<Entry> {
    if Strip(part) == "" then None
    else if pool then ReadPool(Strip(part)) else ReadCreated(Strip(part))
  }

  function ReadParts(parts: seq<string>, pool: bool): seq<Entry> {
    if parts == [] then []
    else
      var front := ReadParts(parts[..|parts| - 1], pool);
      var entry := ReadPart(parts[|parts| - 1], pool);
      if entry.Some? then front + [entry.value] else front
  }

  function ReadCell(cell: string, pool: bool): seq<Entry> {
    ReadParts(Split(cell), pool)
  }

  method ParseCreatedList(cell: string) returns (entries: seq<Entry>)
    ensures entries == ReadCell(cell, false)
  {
    entries := [];
    var parts := Split(cell);
    for n := 0 to |parts|
      invariant entries == ReadParts(parts[..n], false)
    {
      assert parts[..n + 1] == parts[..n] + [parts[n]];
      ReadPartsOfLast(parts[..n], parts[n], false);
      var part := Strip(parts[n]);
      if part != "" {
        var entry := ReadCreated(part);
        if entry.Some? {
          entries := entries + [entry.value];
        }
      }
    }
    assert parts[..|parts|] == parts;
  }

  method ParsePoolList(cell: string) returns (entries: seq<Entry>)
    ensures entries == ReadCell(cell, true)
  {
    entries := [];
    var parts := Split(cell);
    for n := 0 to |parts|
      invariant entries == ReadParts(parts[..n], true)
    {
      assert parts[..n + 1] == parts[..n] + [parts[n]];
      ReadPartsOfLast(parts[..n], parts[n], true);
      var part := Strip(parts[n]);
      if part != "" {
        var i := PastLastColon(part);
        if i > 1 {
          var entry := ReadCount(part[..i - 1], part[i..]);
          if entry.Some? {
            entries := entries + [entry.value];
          }
        }
      }
    }
    assert parts[..|parts|] == parts;
  }

  // ----- the round trip ----------------------------------------------------------------

  /** Labels the cell format can carry. */
  predicate Printable(e: Entry, pool: bool) {
    && ';' !in e.item && (e.item != "" ==> !IsSpace(e.item[0]))
    && if pool then e.item != "" else ':' !in e.item
  }

  lemma {:induction false} NothingToStripRight(s: string)
    requires s == "" || !IsSpace(s[|s| - 1])
    ensures StripRight(s) == s
  {
  }

  lemma ReadPrintedCount(e: Entry)
    ensures ReadCount(e.item, PrintCount(e)) == Some(e)
  {
    ReadPrintedInt(e.count);
    var rest, digits := PrintCount(e), PrintInt(e.count);
    if e.uncertain {
      assert rest[..|rest| - 1] == digits;
    } else {
      assert rest == digits;
      LastIsDigit(e.count);
    }
  }

  lemma LastIsDigit(n: int)
    ensures PrintInt(n) != "" && IsDigit(PrintInt(n)[|PrintInt(n)| - 1])
  {
    if n < 0 {
      assert PrintInt(n)[|PrintInt(n)| - 1] == PrintNat(-n)[|PrintNat(-n)| - 1];
    }
  }

  lemma PastColonOf(item: string, rest: string)
    requires ':' !in rest
    ensures var part := item + ":" + rest;
      PastLastColon(part) == |item| + 1 && part[|item| + 1..] == rest && part != ""
  {
    var part, at := item + ":" + rest, |item|;
    assert part[at] == ':' && part[at + 1..] == rest;
    assert forall j :: at < j < |part| ==> part[j] == rest[j - at - 1];
  }

  lemma FirstColonOf(item: string, rest: string)
    requires ':' !in item
    ensures var part := item + ":" + rest;
      FirstColon(part) == |item| && part[..|item|] == item && part[|item| + 1..] == rest
  {
    var part := item + ":" + rest;
    assert part[|item|] == ':';
    assert forall j :: 0 <= j < |item| ==> part[j] == item[j] && item[j] in item;
  }

  lemma PrintedIsStripped(e: Entry)
    requires e.item != "" ==> !IsSpace(e.item[0])
    ensures Strip(PrintEntry(e)) == PrintEntry(e) != ""
  {
    var part, rest := PrintEntry(e), PrintCount(e);
    CountChars(e);
    assert part[0] == if e.item == "" then ':' else e.item[0];
    assert part[|part| - 1] == rest[|rest| - 1] && CountChar(rest[|rest| - 1]);
    NothingToStripRight(part);
  }

  /** Reading one printed part gives the entry back. */
  lemma ReadPrintedEntry(e: Entry, pool: bool)
    requires Printable(e, pool)
    ensures ReadPart(PrintEntry(e), pool) == Some(e)
  {
    PrintedIsStripped(e);
    ReadPrintedCount(e);
    CountChars(e);
    if pool {
      PastColonOf(e.item, PrintCount(e));
      assert PrintEntry(e)[..|e.item|] == e.item;
    } else {
      FirstColonOf(e.item, PrintCount(e));
    }
  }

  lemma PrintPartsOfLast(front: seq<Entry>, last: Entry)
    ensures PrintParts(front + [last]) == PrintParts(front) + [PrintEntry(last)]
  {
  }

  lemma ReadPartsOfLast(front: seq<string>, last: string, pool: bool)
    ensures ReadParts(front + [last], pool)
            == ReadParts(front, pool) + if ReadPart(last, pool).Some? then [ReadPart(last, pool).value] else []
  {
    assert (front + [last])[..|front|] == front;
  }

  lemma {:induction false} ReadPrintedParts(entries: seq<Entry>, pool: bool)
    requires forall i :: 0 <= i < |entries| ==> Printable(entries[i], pool)
    ensures ReadParts(PrintParts(entries), pool) == entries
  {
    if entries != [] {
      var front, last := entries[..|entries| - 1], entries[|entries| - 1];
      assert entries == front + [last];
      ReadPrintedParts(front, pool);
      ReadPrintedEntry(last, pool);
      PrintPartsOfLast(front, last);
      ReadPartsOfLast(PrintParts(front), PrintEntry(last), pool);
    } else {
      assert PrintParts(entries) == [];
    }
  }

  lemma PrintedHasNoSemicolon(e: Entry)
    requires ';' !in e.item
    ensures ';' !in PrintEntry(e)
  {
    CountChars(e);
  }

  /** What a parser returns can always be printed. */
  lemma ReadIsPrintable(part: string, pool: bool)
    requires ';' !in part && ReadPart(part, pool).Some?
    ensures Printable(ReadPart(part, pool).value, pool)
  {
    StripStart(part);
    var s := Strip(part);
    var entry := ReadPart(part, pool).value;
    if pool {
      assert entry.item == s[..PastLastColon(s) - 1];
      assert entry.item[0] == s[0];
    } else {
      assert entry.item == s[..FirstColon(s)];
    }
  }

  lemma {:induction false} AllReadArePrintable(parts: seq<string>, pool: bool)
    requires forall i :: 0 <= i < |parts| ==> ';' !in parts[i]
    ensures forall e :: e in ReadParts(parts, pool) ==> Printable(e, pool)
  {
    if parts != [] {
      AllReadArePrintable(parts[..|parts| - 1], pool);
      if ReadPart(parts[|parts| - 1], pool).Some? {
        ReadIsPrintable(parts[|parts| - 1], pool);
      }
    }
  }

  /** Parsing a printed cell gives the entries back exactly when every label can be carried:
      free of semicolons, without leading space, and free of colons for created cards or
      non-empty for pools. */
  lemma RoundTripIff(entries: seq<Entry>, pool: bool)
    ensures ReadCell(PrintCell(entries), pool) == entries
            <==> forall i :: 0 <= i < |entries| ==> Printable(entries[i], pool)
  {
    if forall i :: 0 <= i < |entries| ==> Printable(entries[i], pool) {
      RoundTrip(entries, pool);
    }
    var parts := Split(PrintCell(entries));
    forall k | 0 <= k < |parts| ensures ';' !in parts[k] {
      SplitHasNoSemicolon(PrintCell(entries), k);
    }
    AllReadArePrintable(parts, pool);
  }

  lemma RoundTrip(entries: seq<Entry>, pool: bool)
    requires forall i :: 0 <= i < |entries| ==> Printable(entries[i], pool)
    ensures ReadCell(PrintCell(entries), pool) == entries
  {
    if entries == [] {
      assert PrintParts(entries) == [] && Split("") == [""];
      ReadPartsOfLast([], "", pool);
      assert [] + [""] == [""] && Strip("") == "";
    } else {
      forall i | 0 <= i < |entries| ensures ';' !in PrintParts(entries)[i] {
        PrintedHasNoSemicolon(entries[i]);
      }
      SplitOfJoin(PrintParts(entries));
      ReadPrintedParts(entries, pool);
    }
  }

  // ----- counting ----------------------------------------------------------------------

  /** The total of the certain counts, and how many entries are uncertain. */
  function Totals(entries: seq<Entry>): (int, nat) {
    if entries == [] then (0, 0)
    else
      Counted(Totals(entries[..|entries| - 1]), entries[|entries| - 1])
  }

  function Counted(before: (int, nat), e: Entry): (int, nat) {
    if e.uncertain then (before.0, before.1 + 1) else (before.0 + e.count, before.1)
  }

  function CountPart(before: (int, nat), part: string): (int, nat) {
    if part == "" then before
    else
      var rest := part[PastLastColon(part)..];
      if rest != "" && rest[|rest| - 1] == '?' then (before.0, before.1 + 1)
      else
        var value := ReadInt(rest);
        (before.0 + if value.Some? then value.value else 0, before.1)
  }

  function CountParts(parts: seq<string>): (int, nat) {
    if parts == [] then (0, 0) else CountPart(CountParts(parts[..|parts| - 1]), parts[|parts| - 1])
  }

  method CountEntries(cell: string) returns (known: int, uncertain: nat)
    ensures (known, uncertain) == CountParts(Split(cell))
  {
    known, uncertain := 0, 0;
    var parts := Split(cell);
    for n := 0 to |parts|
      invariant (known, uncertain) == CountParts(parts[..n])
    {
      assert parts[..n + 1][..n] == parts[..n];
      if parts[n] != "" {
        var rest := parts[n][PastLastColon(parts[n])..];
        if rest != "" && rest[|rest| - 1] == '?' {
          uncertain := uncertain + 1;
        } else {
          var value := ReadInt(rest);
          if value.Some? {
            known := known + value.value;
          }
        }
      }
    }
    assert parts[..|parts|] == parts;
  }

  lemma CountPrintedEntry(before: (int, nat), e: Entry)
    ensures CountPart(before, PrintEntry(e)) == Counted(before, e)
  {
    CountChars(e);
    PastColonOf(e.item, PrintCount(e));
    ReadPrintedCount(e);
    CountRest(before, e, PrintEntry(e), PrintCount(e));
  }

  lemma CountRest(before: (int, nat), e: Entry, part: string, rest: string)
    requires part != "" && part[PastLastColon(part)..] == rest
    requires ReadCount(e.item, rest) == Some(e)
    ensures CountPart(before, part) == Counted(before, e)
  {
  }

  lemma CountPartsOfLast(front: seq<string>, last: string)
    ensures CountParts(front + [last]) == CountPart(CountParts(front), last)
  {
    assert (front + [last])[..|front|] == front;
  }

  lemma TotalsOfLast(front: seq<Entry>, last: Entry)
    ensures Totals(front + [last]) == Counted(Totals(front), last)
  {
    assert (front + [last])[..|front|] == front;
  }

  lemma CountsOfLast(front: seq<Entry>, last: Entry)
    ensures CountParts(PrintParts(front + [last])) == Counted(CountParts(PrintParts(front)), last)
  {
    PrintPartsOfLast(front, last);
    CountPartsOfLast(PrintParts(front), PrintEntry(last));
    CountPrintedEntry(CountParts(PrintParts(front)), last);
  }

  lemma {:induction false} CountPrintedParts(entries: seq<Entry>)
    ensures CountParts(PrintParts(entries)) == Totals(entries)
  {
    if entries == [] {
      assert PrintParts(entries) == [];
    } else {
      var front, last := entries[..|entries| - 1], entries[|entries| - 1];
      assert entries == front + [last];
      CountPrintedParts(front);
      CountsOfLast(front, last);
      TotalsOfLast(front, last);
    }
  }

  /** Counting a printed cell gives the total of its certain counts and the number of its
      uncertain entries, for all labels without semicolons. */
  lemma CountsArePrinted(entries: seq<Entry>)
    requires forall i :: 0 <= i < |entries| ==> ';' !in entries[i].item
    ensures CountParts(Split(PrintCell(entries))) == Totals(entries)
  {
    CountPrintedParts(entries);
    if entries == [] {
      assert PrintParts(entries) == [] && Split("") == [""];
      CountPartsOfLast([], "");
      assert [] + [""] == [""];
    } else {
      forall i | 0 <= i < |entries| ensures ';' !in PrintParts(entries)[i] {
        PrintedHasNoSemicolon(entries[i]);
      }
      SplitOfJoin(PrintParts(entries));
    }
  }
}
