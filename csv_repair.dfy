/**
  * `clean_file` of scripts/clean_xss_csv.py: a line-by-line repair of the raw XSS CSV. The header
  * line is copied as it is; every later line with an odd number of double quotes loses all of
  * them, every other line is copied as it is. The file system is a parameter: the input file is
  * `None` when it does not exist, otherwise its lines, each with its own line terminator.
  */
module CsvRepair {
  import opened Wrappers
  import opened Chars

  /** `line.count('"')` */
  function QuoteCount(line: string): nat {
    Occurrences(line, Is('"'))
  }

  /** `line.replace('"', '')` */
  function RemoveQuotes(line: string): string {
    if line == [] then []
    else (if line[0] == '"' then [] else [line[0]]) + RemoveQuotes(line[1..])
  }

  /** A line has no quote exactly when its count is zero. */
  lemma {:induction false} QuoteCountZero(line: string)
    ensures QuoteCount(line) == 0 <==> '"' !in line
  {
    if line != [] {
      QuoteCountZero(line[1..]);
      assert forall c :: c in line <==> c == line[0] || c in line[1..];
    }
  }

  /** Removing the quotes drops exactly the counted characters and leaves none behind. */
  lemma {:induction false} RemoveQuotesCount(line: string)
    ensures QuoteCount(RemoveQuotes(line)) == 0
    ensures |RemoveQuotes(line)| + QuoteCount(line) == |line|
  {
    if line != [] {
      RemoveQuotesCount(line[1..]);
      var head := if line[0] == '"' then [] else [line[0]];
      QuoteCountAppend(head, RemoveQuotes(line[1..]));
    }
  }

  /** The rule applied to one data line. */
  function RepairLine(line: string): string {
    if QuoteCount(line) % 2 == 1 then RemoveQuotes(line) else line
  }

  /** The line `readline` returns first: the header, or nothing when the file is empty. */
  function Header(lines: seq<string>): string {
    if lines == [] then "" else lines[0]
  }

  /** The strings written to the output file, in order: the header, then each repaired line. */
  function Cleaned(lines: seq<string>): seq<string> {
    if |lines| <= 1 then [Header(lines)]
    else Cleaned(lines[..|lines| - 1]) + [RepairLine(lines[|lines| - 1])]
  }

  /** The numbers of the repaired lines, counting the header as line 1, as the log reports them. */
  function FixedLines(lines: seq<string>): seq<nat> {
    if lines == [] then []
    else
      FixedLines(lines[..|lines| - 1])
        + (if |lines| >= 2 && QuoteCount(lines[|lines| - 1]) % 2 == 1 then [|lines|] else [])
  }

  /**
    * `clean_file`: `None` when the input does not exist (nothing is opened or written), otherwise
    * the strings written and the line numbers logged as fixed.
    */
  method CleanFile(input: Option<seq<string>>) returns (output: Option<seq<string>>, fixed: seq<nat>)
    ensures input.None? <==> output.None?
    ensures input.None? ==> fixed == []
    ensures input.Some? ==> output == Some(Cleaned(input.value)) && fixed == FixedLines(input.value)
  {
    if input.None? {
      return None, [];
    }
    var lines := input.value;
    if lines == [] {
      return Some([""]), [];
    }
    var header := lines[0];
    var written := [header];
    fixed := [];
    var ln := 1;
    while ln < |lines|
      invariant 1 <= ln <= |lines|
      invariant written == Cleaned(lines[..ln])
      invariant fixed == FixedLines(lines[..ln])
    {
      var line := lines[ln];
      PrefixStep(lines, ln);
      ln := ln + 1;
      var dq := QuoteCount(line);
      if dq % 2 == 1 {
        var repaired := RemoveQuotes(line);
        written := written + [repaired];
        fixed := fixed + [ln];
      } else {
        written := written + [line];
      }
    }
    assert lines[..ln] == lines;
    output := Some(written);
  }

  /** Extending the prefix read so far by one data line adds its repair and maybe its number. */
  lemma PrefixStep(lines: seq<string>, ln: nat)
    requires 1 <= ln < |lines|
    ensures Cleaned(lines[..ln + 1]) == Cleaned(lines[..ln]) + [RepairLine(lines[ln])]
    ensures FixedLines(lines[..ln + 1])
         == FixedLines(lines[..ln]) + (if QuoteCount(lines[ln]) % 2 == 1 then [ln + 1] else [])
  {
    var next := lines[..ln + 1];
    assert next[..ln] == lines[..ln];
    assert next[ln] == lines[ln];
  }

  /** Removing quotes commutes with concatenation, so the other characters keep their order. */
  lemma {:induction false} RemoveQuotesAppend(a: string, b: string)
    ensures RemoveQuotes(a + b) == RemoveQuotes(a) + RemoveQuotes(b)
  {
    if a == [] {
      assert a + b == b;
    } else {
      var ab := a + b;
      assert ab[0] == a[0] && ab[1..] == a[1..] + b;
      RemoveQuotesAppend(a[1..], b);
      var head := if a[0] == '"' then [] else [a[0]];
      assert RemoveQuotes(a) == head + RemoveQuotes(a[1..]);
      assert RemoveQuotes(ab) == head + (RemoveQuotes(a[1..]) + RemoveQuotes(b));
    }
  }

  /** A single character other than `"` survives, a `"` disappears. */
  lemma RemoveQuotesOne(c: char)
    ensures RemoveQuotes([c]) == if c == '"' then [] else [c]
  {
    assert [c][1..] == [];
  }

  /** A repaired line has an even number of quotes, and so is left alone by a second pass. */
  lemma RepairLineIdempotent(line: string)
    ensures QuoteCount(RepairLine(line)) % 2 == 0
    ensures RepairLine(RepairLine(line)) == RepairLine(line)
  {
    RemoveQuotesCount(line);
  }

  /** A repaired line differs from its input only when the input had an odd number of quotes. */
  lemma RepairLineKeeps(line: string)
    ensures RepairLine(line) == line <==> QuoteCount(line) % 2 == 0
  {
    if QuoteCount(line) % 2 == 1 {
      RemoveQuotesCount(line);
      assert |RepairLine(line)| < |line|;
    }
  }

  /**
    * One output string per input line in the same order (and the header alone for an empty
    * file); the header is copied and every data line goes through the rule.
    */
  lemma {:induction false} CleanedShape(lines: seq<string>)
    ensures |Cleaned(lines)| == if lines == [] then 1 else |lines|
    ensures Cleaned(lines)[0] == Header(lines)
    ensures forall i :: 1 <= i < |lines| ==> Cleaned(lines)[i] == RepairLine(lines[i])
  {
    if |lines| > 1 {
      var init := lines[..|lines| - 1];
      CleanedShape(init);
      var before := Cleaned(init);
      assert Cleaned(lines) == before + [RepairLine(lines[|lines| - 1])];
      forall i | 1 <= i < |lines|
        ensures Cleaned(lines)[i] == RepairLine(lines[i])
      {
        if i < |init| {
          assert init[i] == lines[i];
        }
      }
    }
  }

  /** Every data line of the output has an even number of quotes. */
  lemma CleanedEven(lines: seq<string>)
    ensures forall i :: 1 <= i < |Cleaned(lines)| ==> QuoteCount(Cleaned(lines)[i]) % 2 == 0
  {
    CleanedShape(lines);
    forall i | 1 <= i < |Cleaned(lines)|
      ensures QuoteCount(Cleaned(lines)[i]) % 2 == 0
    {
      RepairLineIdempotent(lines[i]);
    }
  }

  /** Running the cleaner over its own output changes nothing. */
  lemma CleanTwice(lines: seq<string>)
    ensures Cleaned(Cleaned(lines)) == Cleaned(lines)
  {
    var once := Cleaned(lines);
    CleanedShape(lines);
    CleanedShape(once);
    forall i | 1 <= i < |once|
      ensures Cleaned(once)[i] == once[i]
    {
      RepairLineIdempotent(lines[i]);
    }
  }

  /** A line number is logged exactly when that data line had an odd number of quotes. */
  lemma {:induction false} FixedLinesExactly(lines: seq<string>)
    ensures forall n :: n in FixedLines(lines) <==> 2 <= n <= |lines| && QuoteCount(lines[n - 1]) % 2 == 1
    ensures forall i, j :: 0 <= i < j < |FixedLines(lines)| ==> FixedLines(lines)[i] < FixedLines(lines)[j]
  {
    if lines != [] {
      var init := lines[..|lines| - 1];
      FixedLinesExactly(init);
      assert forall k :: 0 <= k < |init| ==> init[k] == lines[k];
      var tail := if |lines| >= 2 && QuoteCount(lines[|lines| - 1]) % 2 == 1 then [|lines|] else [];
      assert FixedLines(lines) == FixedLines(init) + tail;
      forall i, j | 0 <= i < j < |FixedLines(lines)|
        ensures FixedLines(lines)[i] < FixedLines(lines)[j]
      {
        if j >= |FixedLines(init)| {
          assert FixedLines(lines)[i] in FixedLines(init);
        }
      }
    }
  }

  /** A file whose second line has one stray quote. */
  lemma StrayQuoteExample(header: string, broken: string, ok: string)
    requires header == "payload,label\n" && broken == "<a href=\"x>,1\n" && ok == "ok,0\n"
    ensures Cleaned([header, broken, ok]) == [header, "<a href=x>,1\n", ok]
    ensures FixedLines([header, broken, ok]) == [2]
  {
    StrayQuoteRepaired(broken);
    NoQuoteLine(ok);
    OnlySecondFixed(header, broken, ok);
    OnlySecondRepaired(header, broken, ok, "<a href=x>,1\n");
  }

  /** The output of a three-line file whose last line needs no repair. */
  lemma OnlySecondRepaired(header: string, a: string, b: string, fixed: string)
    requires RepairLine(a) == fixed && RepairLine(b) == b
    ensures Cleaned([header, a, b]) == [header, fixed, b]
  {
    ThreeLines(header, a, b);
  }

  /** Only the second line is logged when it alone has an odd number of quotes. */
  lemma OnlySecondFixed(header: string, a: string, b: string)
    requires QuoteCount(a) % 2 == 1 && QuoteCount(b) % 2 == 0
    ensures FixedLines([header, a, b]) == [2]
  {
    ThreeLines(header, a, b);
  }

  lemma NoQuoteLine(line: string)
    requires line == "ok,0\n"
    ensures RepairLine(line) == line && QuoteCount(line) == 0
  {
    assert '"' !in line;
    QuoteCountZero(line);
  }

  /** A header and two data lines, spelled out. */
  lemma ThreeLines(header: string, a: string, b: string)
    ensures Cleaned([header, a, b]) == [header, RepairLine(a), RepairLine(b)]
    ensures FixedLines([header, a, b])
         == (if QuoteCount(a) % 2 == 1 then [2] else []) + (if QuoteCount(b) % 2 == 1 then [3] else [])
  {
    var two := [header, a];
    assert [header, a, b][..2] == two;
    assert two[..1] == [header];
    assert Cleaned([header]) == [header];
    assert Cleaned(two) == [header, RepairLine(a)];
    assert FixedLines([header]) == [];
    assert FixedLines(two) == if QuoteCount(a) % 2 == 1 then [2] else [];
  }

  /** The broken line loses its one quote and keeps everything else. */
  lemma StrayQuoteRepaired(broken: string)
    requires broken == "<a href=\"x>,1\n"
    ensures QuoteCount(broken) == 1
    ensures RepairLine(broken) == "<a href=x>,1\n"
  {
    var left, right := "<a href=", "x>,1\n";
    StrayQuotePieces(broken, left, right);
    OneStrayQuote(left, right);
  }

  /** The pieces around the quote of the example line. */
  lemma StrayQuotePieces(broken: string, left: string, right: string)
    requires broken == "<a href=\"x>,1\n"
    requires left == "<a href=" && right == "x>,1\n"
    ensures broken == left + ['"'] + right
    ensures '"' !in left && '"' !in right
    ensures left + right == "<a href=x>,1\n"
  {
  }

  /** A single quote between two quote-free pieces is dropped and the pieces are joined. */
  lemma OneStrayQuote(left: string, right: string)
    requires '"' !in left && '"' !in right
    ensures QuoteCount(left + ['"'] + right) == 1
    ensures RepairLine(left + ['"'] + right) == left + right
  {
    OneStrayQuoteCount(left, right);
    OneStrayQuoteRemoved(left, right);
  }

  lemma OneStrayQuoteCount(left: string, right: string)
    requires '"' !in left && '"' !in right
    ensures QuoteCount(left + ['"'] + right) == 1
  {
    var w := left + ['"'];
    QuoteCountAppend(left, ['"']);
    QuoteCountAppend(w, right);
    QuoteCountZero(left);
    QuoteCountZero(right);
    assert QuoteCount(['"']) == 1;
  }

  lemma OneStrayQuoteRemoved(left: string, right: string)
    requires '"' !in left && '"' !in right
    ensures RemoveQuotes(left + ['"'] + right) == left + right
  {
    var w := left + ['"'];
    RemoveQuotesAppend(w, right);
    RemoveQuotesAppend(left, ['"']);
    RemoveQuotesOne('"');
    NoQuotesKept(left);
    NoQuotesKept(right);
    assert RemoveQuotes(['"']) == [];
    assert RemoveQuotes(w) == RemoveQuotes(left) + RemoveQuotes(['"']);
    assert RemoveQuotes(w) == left;
    assert RemoveQuotes(w + right) == left + right;
    assert left + ['"'] + right == w + right;
  }

  lemma QuoteCountAppend(a: string, b: string)
    ensures QuoteCount(a + b) == QuoteCount(a) + QuoteCount(b)
  {
    OccurrencesAppend(a, b, Is('"'));
  }

  /** A line without quotes is its own repair. */
  lemma {:induction false} NoQuotesKept(line: string)
    requires '"' !in line
    ensures RemoveQuotes(line) == line
  {
    if line != [] {
      assert line[0] in line;
      assert forall c :: c in line[1..] ==> c in line;
      NoQuotesKept(line[1..]);
    }
  }
}
