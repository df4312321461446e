/** What `main` does once the options are known: parse the format string,
    report an unknown selector and stop, or print one line for every
    character of every input line. Reading standard input is left to the
    caller: the input arrives as its lines, line breaks already removed. */
module Driver {
  import opened Wrappers
  import opened UnicodeData
  import opened Attributes
  import opened Selectors
  import opened Formatter
  import Hex

  /** What the run writes to standard output and to standard error. */
  datatype Outcome = Outcome(stdout: string, stderr: string)

  /** The lines printed for the characters of one input line, in order. */
  function LinesFor(db: Database, fmts: seq<Display>, chars: string, noName: bool, tight: bool): string
  {
    if chars == [] then ""
    else Line(db, fmts, chars[0], noName, tight) + LinesFor(db, fmts, chars[1..], noName, tight)
  }

  /** The lines printed for every input line, in order. */
  function Output(db: Database, fmts: seq<Display>, input: seq<string>, noName: bool, tight: bool): string
  {
    if input == [] then ""
    else LinesFor(db, fmts, input[0], noName, tight) + Output(db, fmts, input[1..], noName, tight)
  }

  /** The run: an unknown selector is reported on standard error as
      `Unknown attribute <x>` and nothing is printed (the exit status stays
      success); otherwise every character gets its line. */
  function Run(db: Database, format: string, input: seq<string>, noName: bool, tight: bool): Outcome
  {
    match ParseFormat(format)
    case Err(x) => Outcome("", "Unknown attribute " + [x] + "\n")
    case Ok(fmts) => Outcome(Output(db, fmts, input, noName, tight), "")
  }

  /** A format string with a character that is not a selector prints nothing
      for any input and names its leftmost such character on standard error. */
  lemma RunRejects(db: Database, format: string, input: seq<string>, noName: bool, tight: bool, i: nat)
    requires i < |format| && !IsSelector(format[i])
    requires forall j :: 0 <= j < i ==> IsSelector(format[j])
    ensures Run(db, format, input, noName, tight) == Outcome("", "Unknown attribute " + [format[i]] + "\n")
  {
    ParseFormatRejects(format, i);
  }

  /** How many times `ch` occurs in `s`. */
  function Count(s: string, ch: char): nat
  {
    if s == [] then 0 else (if s[0] == ch then 1 else 0) + Count(s[1..], ch)
  }

  lemma {:induction false} CountAppend(a: string, b: string, ch: char)
    ensures Count(a + b, ch) == Count(a, ch) + Count(b, ch)
  {
    if a == [] {
      assert a + b == b;
    } else {
      assert (a + b)[1..] == a[1..] + b;
      CountAppend(a[1..], b, ch);
    }
  }

  lemma {:induction false} CountAbsent(s: string, ch: char)
    requires ch !in s
    ensures Count(s, ch) == 0
  {
    if s != [] {
      CountAbsent(s[1..], ch);
    }
  }

  /** The database gives the character no block name and no name with a line break in it. */
  predicate NamesOnOneLine(db: Database, x: char)
  {
    && (db.block(x).Some? ==> '\n' !in db.block(x).value)
    && (db.name(x).Some? ==> '\n' !in db.name(x).value)
  }

  /** A character's output is one line: its only line break is the last character. */
  lemma {:induction false} LineIsOneLine(db: Database, fmts: seq<Display>, c: char, noName: bool, tight: bool)
    requires NamesOnOneLine(db, c)
    ensures Count(Line(db, fmts, c, noName, tight), '\n') == 1
  {
    FieldsOnOneLine(db, fmts, c, tight);
    var fields := Fields(db, fmts, c, tight);
    var name := NameText(db, c, noName);
    assert '\n' !in name;
    CountAppend(fields, name, '\n');
    CountAbsent(fields, '\n');
    CountAbsent(name, '\n');
    CountAppend(fields + name, "\n", '\n');
  }

  lemma {:induction false} FieldsOnOneLine(db: Database, fmts: seq<Display>, c: char, tight: bool)
    requires NamesOnOneLine(db, c)
    ensures '\n' !in Fields(db, fmts, c, tight)
  {
    if fmts != [] {
      InfoNoNewline(db, fmts[0], c);
      FieldLayout(db, fmts[0], c, tight);
      var info := Info(db, fmts[0], c);
      var f := Field(db, fmts[0], c, tight);
      assert f == f[..|info|] + f[|info|..];
      FieldsOnOneLine(db, fmts[1..], c, tight);
    }
  }

  /** One output line per input character. */
  lemma {:induction false} OneLinePerCharacter(db: Database, fmts: seq<Display>, chars: string, noName: bool, tight: bool)
    requires forall x :: x in chars ==> NamesOnOneLine(db, x)
    ensures Count(LinesFor(db, fmts, chars, noName, tight), '\n') == |chars|
  {
    if chars != [] {
      LineIsOneLine(db, fmts, chars[0], noName, tight);
      OneLinePerCharacter(db, fmts, chars[1..], noName, tight);
      CountAppend(Line(db, fmts, chars[0], noName, tight), LinesFor(db, fmts, chars[1..], noName, tight), '\n');
    }
  }

  /** The number of characters over all input lines. */
  function CharCount(input: seq<string>): nat
  {
    if input == [] then 0 else |input[0]| + CharCount(input[1..])
  }

  /** A run with a valid format string prints exactly one line for each input
      character, and nothing on standard error. */
  lemma {:induction false} RunLineCount(db: Database, format: string, input: seq<string>, noName: bool, tight: bool)
    requires ParseFormat(format).Ok?
    requires forall j, x :: 0 <= j < |input| && x in input[j] ==> NamesOnOneLine(db, x)
    ensures Run(db, format, input, noName, tight).stderr == ""
    ensures Count(Run(db, format, input, noName, tight).stdout, '\n') == CharCount(input)
  {
    OutputLineCount(db, ParseFormat(format).value, input, noName, tight);
  }

  lemma {:induction false} OutputLineCount(db: Database, fmts: seq<Display>, input: seq<string>, noName: bool, tight: bool)
    requires forall j, x :: 0 <= j < |input| && x in input[j] ==> NamesOnOneLine(db, x)
    ensures Count(Output(db, fmts, input, noName, tight), '\n') == CharCount(input)
  {
    if input != [] {
      OneLinePerCharacter(db, fmts, input[0], noName, tight);
      OutputLineCount(db, fmts, input[1..], noName, tight);
      CountAppend(LinesFor(db, fmts, input[0], noName, tight), Output(db, fmts, input[1..], noName, tight), '\n');
    }
  }

  /** The format `pe` selects CodePoint then Encoding. */
  lemma ParsePe()
    ensures ParseFormat("pe") == Ok([CodePoint, Encoding])
  {
    assert "pe"[0] == 'p' && "pe"[1..] == "e";
    assert "e"[0] == 'e' && "e"[1..] == "";
    assert TryFrom('p') == Ok(CodePoint) && TryFrom('e') == Ok(Encoding);
    assert ParseFormat("") == Ok([]);
    assert [Encoding] + [] == [Encoding];
    assert ParseFormat("e") == Ok([Encoding]);
    assert ParseFormat("pe") == Ok([CodePoint] + [Encoding]);
    assert [CodePoint] + [Encoding] == [CodePoint, Encoding];
  }

  lemma CodePointFieldOfA(db: Database)
    ensures Field(db, CodePoint, 'A', false) == "U+0041   "
  {
    CodePointTextOfA();
  }

  lemma CodePointTextOfA()
    ensures CodePointText('A') == "U+0041"
  {
    assert Hex.UpperHex(0x41) == "41";
    assert PadHex("41") == PadHex("041") == PadHex("0041") == "0041";
  }

  lemma EncodingFieldOfA(db: Database)
    ensures Field(db, Encoding, 'A', false) == "<41>       "
  {
    assert EncodingText('A') == "<41>";
  }

  /** Format `pe`, padding on, character `A`: the code point padded to 8 and
      the encoding padded to 10, each followed by its separating space; the
      name column follows, as LineEnding states. */
  lemma FieldsOfA(db: Database)
    ensures Fields(db, [CodePoint, Encoding], 'A', false) == "U+0041   <41>       "
  {
    TwoFields(db, CodePoint, Encoding, 'A', false);
    CodePointFieldOfA(db);
    EncodingFieldOfA(db);
  }

  /** Format `z`: no line is printed for `A`, and the diagnostic names `z`. */
  lemma UnknownSelector(db: Database)
    ensures Run(db, "z", ["A"], false, false) == Outcome("", "Unknown attribute z\n")
  {
  }
}
