/** The attribute kinds (`enum Display`), their selector characters, their
    column widths (`pad_to`) and their rendering (`info_for`). */
module Attributes {
  import opened Wrappers
  import opened Text
  import Decimal
  import Hex
  import Utf8
  import opened UnicodeData

  /** The closed set of attributes a line can show. */
  datatype Display = CodePoint | Encoding | Age | Category | Block | Case

  /** The format-string character that selects each attribute. */
  function Selector(d: Display): char
  {
    match d
    case CodePoint => 'p'
    case Encoding => 'e'
    case Age => 'a'
    case Category => 'c'
    case Block => 'b'
    case Case => 'C'
  }

  /** `Display::try_from`: a selector character maps to its attribute, any
      other character is handed back as the error. */
  function TryFrom(x: char): (r: Result<Display, char>)
    ensures r.Ok? ==> Selector(r.value) == x
    ensures r.Err? ==> r.error == x && forall d: Display :: Selector(d) != x
  {
    match x
    case 'p' => Ok(CodePoint)
    case 'e' => Ok(Encoding)
    case 'a' => Ok(Age)
    case 'c' => Ok(Category)
    case 'b' => Ok(Block)
    case 'C' => Ok(Case)
    case _ => Err(x)
  }

  /** Each attribute's selector character parses back to that attribute. */
  lemma TryFromSelector(d: Display)
    ensures TryFrom(Selector(d)) == Ok(d)
  {
  }

  /** `Display::pad_to`: the advisory column width, none for Case. */
  function PadTo(d: Display): Option<nat>
  {
    match d
    case CodePoint => Some(8)
    case Encoding => Some(10)
    case Age => Some(6)
    case Category => Some(2)
    case Block => Some(25)
    case Case => None
  }

  // ---------------------------------------------------------------- CodePoint

  /** The digit count the CodePoint loop stops at: at least 4, and even. */
  function PaddedLength(len: nat): nat
  {
    if len <= 4 then 4 else if len % 2 == 1 then len + 1 else len
  }

  /** Leading zeros added one at a time while the length is below 4 or odd. */
  function PadHex(hex: string): string
    decreases PaddedLength(|hex|) - |hex|
  {
    if |hex| < 4 || |hex| % 2 == 1 then PadHex("0" + hex) else hex
  }

  /** Padding adds exactly the zeros that bring the length to PaddedLength. */
  lemma {:induction false} PadHexIsZeros(hex: string)
    ensures PadHex(hex) == Hex.Zeros(PaddedLength(|hex|) - |hex|) + hex
    decreases PaddedLength(|hex|) - |hex|
  {
    if |hex| < 4 || |hex| % 2 == 1 {
      PadHexIsZeros("0" + hex);
      var k := PaddedLength(|hex|) - |hex| - 1;
      Hex.ZerosCons(k);
      assert Hex.Zeros(k) + ("0" + hex) == Hex.Zeros(k + 1) + hex;
    } else {
      assert Hex.Zeros(0) + hex == hex;
    }
  }

  /** `U+` and the `{:X}` digits of the scalar value, padded by PadHex. */
  function CodePointText(c: char): string
  {
    "U+" + PadHex(Hex.UpperHex(c as int))
  }

  /** The padded digits of `n` spell `n` in an even number, at least four, of
      upper-case digits. */
  lemma PaddedDigitsValue(n: nat)
    ensures var body := PadHex(Hex.UpperHex(n));
      && |body| >= 4 && |body| % 2 == 0
      && Hex.IsUpperHex(body) && Hex.Value(body) == n
  {
    var digits := Hex.UpperHex(n);
    PadHexKeepsValue(digits);
    Hex.ValueOfUpperHex(n);
  }

  /** Padding reaches the padded length, keeps the digits upper-case and
      leaves the number they spell unchanged. */
  lemma PadHexKeepsValue(digits: string)
    requires Hex.IsUpperHex(digits)
    ensures var body := PadHex(digits);
      && |body| == PaddedLength(|digits|)
      && Hex.IsUpperHex(body) && Hex.IsHex(body) && Hex.Value(body) == Hex.Value(digits)
  {
    var zeros := Hex.Zeros(PaddedLength(|digits|) - |digits|);
    PadHexIsZeros(digits);
    Hex.UpperHexConcat(zeros, digits);
    Hex.ValueLeadingZeros(|zeros|, digits);
  }

  /** Zeros are added only while needed: past four digits the padded digits
      never start with "00". */
  lemma PaddedDigitsMinimal(n: nat)
    ensures var body := PadHex(Hex.UpperHex(n));
      |body| > 4 ==> body[0] != '0' || body[1] != '0'
  {
    var digits := Hex.UpperHex(n);
    PadHexIsZeros(digits);
    var body := Hex.Zeros(PaddedLength(|digits|) - |digits|) + digits;
    if |body| > 4 {
      assert n > 0 && |digits| > 4;
      if |digits| % 2 == 1 {
        assert body[1] == digits[0];
      } else {
        assert body[0] == digits[0];
      }
    }
  }

  /** Every value below 16^6, so every scalar value, pads to at most six digits. */
  lemma PaddedDigitsBound(n: nat)
    requires n < 0x100_0000
    ensures |PadHex(Hex.UpperHex(n))| <= 6
  {
    var digits := Hex.UpperHex(n);
    PadHexIsZeros(digits);
    assert Hex.Pow16(6) == 0x100_0000;
    Hex.UpperHexLength(n, 6);
  }

  /** The CodePoint text is `U+` and an even number, at least four, of
      upper-case digits that spell the scalar value; zeros are added only
      while needed, so a body longer than four digits never starts with "00";
      and every scalar value fits the width of 8. */
  lemma CodePointTextMeaning(c: char)
    ensures var r := CodePointText(c);
      && |r| >= 6 && r[..2] == "U+"
      && var body := r[2..];
      && |body| >= 4 && |body| % 2 == 0
      && Hex.IsUpperHex(body) && Hex.Value(body) == c as int
      && (|body| > 4 ==> body[0] != '0' || body[1] != '0')
      && |r| <= 8
  {
    var r := CodePointText(c);
    assert r[2..] == PadHex(Hex.UpperHex(c as int));
    PaddedDigitsValue(c as int);
    PaddedDigitsMinimal(c as int);
    PaddedDigitsBound(c as int);
  }

  /** U+1F600 has five digits and is padded to six. */
  lemma CodePointExample()
    ensures CodePointText('\U{1F600}') == "U+01F600"
  {
    assert '\U{1F600}' as int == 0x1F600;
    UpperHexOf1F600();
    PadHexOf1F600();
  }

  /** `{:X}` of 0x1F600, one digit at a time. */
  lemma UpperHexOf1F600()
    ensures Hex.UpperHex(0x1F600) == "1F600"
  {
    UpperHexOf1F60();
    assert Hex.UpperDigit(0) == '0';
  }

  lemma UpperHexOf1F60()
    ensures Hex.UpperHex(0x1F60) == "1F60"
  {
    UpperHexOf1F6();
    assert Hex.UpperDigit(0) == '0';
  }

  lemma UpperHexOf1F6()
    ensures Hex.UpperHex(0x1F6) == "1F6"
  {
    assert Hex.UpperDigit(1) == '1' && Hex.UpperDigit(15) == 'F';
    assert Hex.UpperHex(0x1F) == "1F";
    assert Hex.UpperDigit(6) == '6';
  }

  /** Five digits are odd, so the loop adds one zero and stops at six. */
  lemma PadHexOf1F600()
    ensures PadHex("1F600") == "01F600"
  {
    var digits := "1F600";
    assert PadHex(digits) == PadHex("0" + digits);
    assert PadHex("0" + digits) == "0" + digits;
    assert "0" + digits == "01F600";
  }

  // ---------------------------------------------------------------- Encoding

  /** The UTF-8 octets of `c` as lower-case hex pairs inside angle brackets. */
  function EncodingText(c: char): string
  {
    "<" + Hex.LowerPairs(Utf8.Encode(c)) + ">"
  }

  /** Reads an Encoding text back into the character it shows, if it is one. */
  function ParseEncodingText(s: string): Option<char>
  {
    if |s| >= 2 && s[0] == '<' && s[|s| - 1] == '>' then
      match Hex.ParsePairs(s[1..|s| - 1])
      case Some(bs) => Utf8.Decode(bs)
      case None => None
    else None
  }

  /** The Encoding text holds two lower-case digits per UTF-8 octet between
      `<` and `>`, so its length is 2 * octets + 2, between 4 and 10; the
      pairs read back as the octets, and those decode to the character. */
  lemma EncodingTextMeaning(c: char)
    ensures var r := EncodingText(c);
      && var bs := Utf8.Encode(c);
      && |r| == 2 * |bs| + 2 && 4 <= |r| <= 10
      && r[0] == '<' && r[|r| - 1] == '>'
      && (forall i :: 1 <= i < |r| - 1 ==> Hex.IsLowerHexDigit(r[i]))
      && Hex.ParsePairs(r[1..|r| - 1]) == Some(bs)
      && ParseEncodingText(r) == Some(c)
  {
    var r := EncodingText(c);
    var bs := Utf8.Encode(c);
    assert r[1..|r| - 1] == Hex.LowerPairs(bs);
    Hex.ParseLowerPairs(bs);
    Utf8.DecodeEncode(c);
  }

  /** U+00E9 encodes as two octets. */
  lemma EncodingExample()
    ensures EncodingText('\U{E9}') == "<c3a9>"
  {
    assert Utf8.Encode('\U{E9}') == [0xC3, 0xA9];
    assert Hex.LowerPairs([0xC3, 0xA9]) == "c3a9";
  }

  // ---------------------------------------------------------------- Age

  /** `v<major>.<minor>.<micro>` for a known version, `(unknown version)` otherwise. */
  function AgeText(age: Option<Version>): string
  {
    match age
    case Some(v) =>
      "v" + Decimal.Digits(v.major) + "." + Decimal.Digits(v.minor) + "." + Decimal.Digits(v.micro)
    case None => "(unknown version)"
  }

  predicate IsNumeral(s: string) { |s| >= 1 && Decimal.IsDigits(s) }

  /** Reads an Age text back into a version; anything else reads as unknown. */
  function ParseAgeText(s: string): Option<Version>
  {
    if |s| >= 1 && s[0] == 'v' then
      var parts := Split(s[1..], '.');
      if |parts| == 3 && IsNumeral(parts[0]) && IsNumeral(parts[1]) && IsNumeral(parts[2]) then
        Some(Version(Decimal.Value(parts[0]), Decimal.Value(parts[1]), Decimal.Value(parts[2])))
      else None
    else None
  }

  /** A known version's text reads back as that version. */
  lemma VersionTextRoundTrip(v: Version)
    ensures ParseAgeText(AgeText(Some(v))) == Some(v)
  {
    var a, b, m := Decimal.Digits(v.major), Decimal.Digits(v.minor), Decimal.Digits(v.micro);
    var s := AgeText(Some(v));
    assert s[1..] == a + ['.'] + (b + ['.'] + m);
    NoDotInDigits(a);
    NoDotInDigits(b);
    NoDotInDigits(m);
    SplitPrefix(a, '.', b + ['.'] + m);
    SplitPrefix(b, '.', m);
    SplitNoSeparator(m, '.');
    var parts := Split(s[1..], '.');
    assert parts == [a, b, m];
    Decimal.ValueOfDigits(v.major);
    Decimal.ValueOfDigits(v.minor);
    Decimal.ValueOfDigits(v.micro);
  }

  /** The Age text determines the lookup result: a known version reads back
      as itself and starts with `v`; the unknown case is exactly the fallback
      text, which reads back as unknown. */
  lemma AgeTextRoundTrip(age: Option<Version>)
    ensures ParseAgeText(AgeText(age)) == age
    ensures age.None? ==> AgeText(age) == "(unknown version)"
    ensures age.Some? ==> AgeText(age)[0] == 'v'
  {
    if age.Some? {
      VersionTextRoundTrip(age.value);
    } else {
      assert AgeText(age)[0] == '(';
    }
  }

  lemma NoDotInDigits(s: string)
    requires Decimal.IsDigits(s)
    ensures '.' !in s
  {
  }

  // ---------------------------------------------------------------- Category

  /** The two-letter general category alias. */
  function CategoryText(g: GeneralCategory): string
  {
    Abbr(g)
  }

  /** The Category text is two characters and reads back as the category. */
  lemma CategoryTextMeaning(g: GeneralCategory)
    ensures |CategoryText(g)| == 2 && FromAbbr(CategoryText(g)) == Some(g)
  {
    FromAbbrOfAbbr(g);
  }

  // ---------------------------------------------------------------- Block

  /** `[<name>]` for a known block, `(unknown block)` otherwise. */
  function BlockText(block: Option<string>): string
  {
    match block
    case Some(name) => "[" + name + "]"
    case None => "(unknown block)"
  }

  /** Reads a Block text back into the block name; anything else reads as unknown. */
  function ParseBlockText(s: string): Option<string>
  {
    if |s| >= 2 && s[0] == '[' && s[|s| - 1] == ']' then Some(s[1..|s| - 1]) else None
  }

  /** The Block text determines the lookup result: a known block reads back as
      its name, and the unknown case is exactly the fallback text. */
  lemma BlockTextRoundTrip(block: Option<string>)
    ensures ParseBlockText(BlockText(block)) == block
    ensures block.None? ==> BlockText(block) == "(unknown block)"
  {
    if block.Some? {
      var s := BlockText(block);
      assert s[1..|s| - 1] == block.value;
    }
  }

  // ---------------------------------------------------------------- Case

  /** The case properties in display order, each with its marker letter. */
  const CaseMarkers: seq<(CaseProperty, char)> := [
    (CaseIgnorable, 'i'), (Cased, 'c'), (ChangesWhenCasefolded, 'f'),
    (ChangesWhenCasemapped, 'm'), (ChangesWhenLowercased, 'l'),
    (ChangesWhenUppercased, 'u'), (ChangesWhenTitlecased, 't'),
    (Lowercase, 'L'), (Uppercase, 'U')]

  /** One slot: the marker when the property holds, a space when it does not. */
  function Slot(db: Database, c: char, entry: (CaseProperty, char)): char
  {
    if db.hasProperty(entry.0, c) then entry.1 else ' '
  }

  /** The slots of the first k markers, in order: the case text after k
      pushes. */
  function Slots(db: Database, c: char, k: nat): (r: string)
    requires k <= |CaseMarkers|
    ensures |r| == k
  {
    if k == 0 then [] else Slots(db, c, k - 1) + [Slot(db, c, CaseMarkers[k - 1])]
  }

  /** Slot j of the first k slots is the slot of marker j. */
  lemma {:induction false} SlotsAt(db: Database, c: char, k: nat, j: nat)
    requires j < k <= |CaseMarkers|
    ensures Slots(db, c, k)[j] == Slot(db, c, CaseMarkers[j])
  {
    if j < k - 1 {
      SlotsAt(db, c, k - 1, j);
    }
  }

  /** The nine slots in order, inside parentheses. */
  function CaseText(db: Database, c: char): string
  {
    "(" + Slots(db, c, |CaseMarkers|) + ")"
  }

  /** The Case text is always eleven characters: `(`, nine slots, `)`; slot k
      shows the k-th marker exactly when the k-th property holds and a space
      exactly when it does not. */
  lemma CaseTextMeaning(db: Database, c: char)
    ensures var r := CaseText(db, c);
      && |r| == 11 && r[0] == '(' && r[10] == ')'
      && forall k :: 0 <= k < 9 ==>
           (r[k + 1] == CaseMarkers[k].1 <==> db.hasProperty(CaseMarkers[k].0, c))
           && (r[k + 1] == ' ' <==> !db.hasProperty(CaseMarkers[k].0, c))
  {
    var r := CaseText(db, c);
    forall k | 0 <= k < 9
      ensures r[k + 1] == Slot(db, c, CaseMarkers[k])
    {
      SlotsAt(db, c, |CaseMarkers|, k);
    }
  }

  // ---------------------------------------------------------------- info_for

  /** What `info_for` renders for one attribute of one character. */
  function Info(db: Database, d: Display, c: char): string
  {
    match d
    case CodePoint => CodePointText(c)
    case Encoding => EncodingText(c)
    case Age => AgeText(db.age(c))
    case Category => CategoryText(db.category(c))
    case Block => BlockText(db.block(c))
    case Case => CaseText(db, c)
  }

  /** The `append_case` closure: push the property's marker if it holds,
      a space otherwise. */
  method AppendCase(db: Database, c: char, caseStr: string, property: CaseProperty, marker: char)
    returns (r: string)
    ensures r == caseStr + [Slot(db, c, (property, marker))]
  {
    if db.hasProperty(property, c) {
      r := caseStr + [marker];
    } else {
      r := caseStr + [' '];
    }
  }

  /** The CodePoint arm of `info_for`: the digit string grows one leading zero
      at a time until its length is at least four and even. */
  method CodePointInfo(c: char) returns (s: string)
    ensures s == CodePointText(c)
  {
    var n := c as int;
    var hex := Hex.UpperHex(n);
    while |hex| < 4 || |hex| % 2 == 1
      invariant PadHex(hex) == PadHex(Hex.UpperHex(n))
      decreases PaddedLength(|hex|) - |hex|
    {
      hex := "0" + hex;
    }
    s := "U+" + hex;
  }

  /** The Case arm of `info_for`: nine slots pushed one by one, in parentheses.
      After push k the text so far is `Slots(db, c, k)`. */
  method CaseInfo(db: Database, c: char) returns (s: string)
    ensures s == CaseText(db, c)
  {
    var caseStr := "";
    caseStr := AppendCase(db, c, caseStr, CaseIgnorable, 'i');
    assert caseStr == Slots(db, c, 1);
    caseStr := AppendCase(db, c, caseStr, Cased, 'c');
    assert caseStr == Slots(db, c, 2);
    caseStr := AppendCase(db, c, caseStr, ChangesWhenCasefolded, 'f');
    assert caseStr == Slots(db, c, 3);
    caseStr := AppendCase(db, c, caseStr, ChangesWhenCasemapped, 'm');
    assert caseStr == Slots(db, c, 4);
    caseStr := AppendCase(db, c, caseStr, ChangesWhenLowercased, 'l');
    assert caseStr == Slots(db, c, 5);
    caseStr := AppendCase(db, c, caseStr, ChangesWhenUppercased, 'u');
    assert caseStr == Slots(db, c, 6);
    caseStr := AppendCase(db, c, caseStr, ChangesWhenTitlecased, 't');
    assert caseStr == Slots(db, c, 7);
    caseStr := AppendCase(db, c, caseStr, Lowercase, 'L');
    assert caseStr == Slots(db, c, 8);
    caseStr := AppendCase(db, c, caseStr, Uppercase, 'U');
    assert caseStr == Slots(db, c, 9);
    s := "(" + caseStr + ")";
  }

  /** `Display::info_for`: renders one attribute of one character. */
  method InfoFor(db: Database, d: Display, c: char) returns (s: string)
    ensures s == Info(db, d, c)
  {
    match d
    case CodePoint =>
      s := CodePointInfo(c);
    case Encoding =>
      s := EncodingText(c);
    case Age =>
      s := AgeText(db.age(c));
    case Category =>
      s := CategoryText(db.category(c));
    case Block =>
      s := BlockText(db.block(c));
    case Case =>
      s := CaseInfo(db, c);
  }

  // ---------------------------------------------------------------- widths

  /** The widths that `pad_to` declares as maxima hold for the three attributes
      whose text is bounded: CodePoint ("U+" and at most six digits),
      Encoding (two digits for each of at most four octets, and two brackets)
      and Category (two letters). Only Case has no width. */
  lemma WidthsFit(db: Database, d: Display, c: char)
    ensures PadTo(d).None? <==> d == Case
    ensures d == CodePoint || d == Encoding || d == Category ==>
      |Info(db, d, c)| <= PadTo(d).value
  {
    match d
    case CodePoint => CodePointTextMeaning(c);
    case Encoding => EncodingTextMeaning(c);
    case _ =>
  }

  /** The Age and Block widths are not maxima: version 10.0.0 renders in
      seven characters, both fallbacks are longer than their widths, and a
      block's text is its name plus two brackets, however long the name. */
  lemma WidthsExceeded(name: string)
    ensures |AgeText(Some(Version(10, 0, 0)))| == 7 > PadTo(Age).value
    ensures |AgeText(None)| == 17 > PadTo(Age).value
    ensures |BlockText(None)| == 15
    ensures |BlockText(Some(name))| == |name| + 2
  {
    assert Decimal.Digits(1) == "1" && Decimal.Digits(0) == "0";
    assert Decimal.Digits(10) == "10";
  }

  /** Rendering never fails and never yields an empty text: every attribute,
      fallbacks included, renders at least two characters. */
  lemma InfoNeverEmpty(db: Database, d: Display, c: char)
    ensures |Info(db, d, c)| >= 2
  {
    match d
    case CodePoint => CodePointTextMeaning(c);
    case Encoding => EncodingTextMeaning(c);
    case Case => CaseTextMeaning(db, c);
    case _ =>
  }

  /** No rendered attribute contains a line break, as long as the block name
      the database gives for the character has none. */
  lemma InfoNoNewline(db: Database, d: Display, c: char)
    requires db.block(c).Some? ==> '\n' !in db.block(c).value
    ensures '\n' !in Info(db, d, c)
  {
    match d
    case CodePoint => CodePointNoNewline(c);
    case Encoding => EncodingTextMeaning(c);
    case Age => AgeNoNewline(db.age(c));
    case Category =>
    case Block =>
    case Case => CaseNoNewline(db, c);
  }

  lemma CaseNoNewline(db: Database, c: char)
    ensures '\n' !in CaseText(db, c)
  {
    CaseTextMeaning(db, c);
    var r := CaseText(db, c);
    forall i | 0 <= i < |r| ensures r[i] != '\n' {
      if 0 < i < 10 {
        assert r[(i - 1) + 1] == CaseMarkers[i - 1].1 || r[(i - 1) + 1] == ' ';
      }
    }
  }

  lemma CodePointNoNewline(c: char)
    ensures '\n' !in CodePointText(c)
  {
    CodePointTextMeaning(c);
    var r := CodePointText(c);
    assert r == r[..2] + r[2..];
  }

  lemma AgeNoNewline(age: Option<Version>)
    ensures '\n' !in AgeText(age)
  {
    if age.Some? {
      var v := age.value;
      NoNewlineInDigits(Decimal.Digits(v.major));
      NoNewlineInDigits(Decimal.Digits(v.minor));
      NoNewlineInDigits(Decimal.Digits(v.micro));
    }
  }

  lemma NoNewlineInDigits(s: string)
    requires Decimal.IsDigits(s)
    ensures '\n' !in s
  {
  }
}
