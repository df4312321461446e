# unispect, modelled in Dafny

unispect reads text and prints one line per character. The line shows the
attributes chosen by a format string, then the character's Unicode name. The
selectors are `p` (code point), `e` (UTF-8 encoding), `a` (age), `c` (general
category), `b` (block) and `C` (case properties). This project models the
tool's core, all of it in `src/main.rs`:

- the attribute kinds (`enum Display`) and their selector table (`try_from`);
- the column widths (`pad_to`) and the rendering of each kind (`info_for`);
- the parse of the format string in `main`, which stops at the first unknown
  selector;
- the line builder `print_unicode_info`, and how `main` drives it for each
  character.

Modules, one per component:

| file | module | models |
|---|---|---|
| `wrappers.dfy` | `Wrappers` | Rust's `Option` and `Result` |
| `text.dfy` | `Text` | runs of spaces; splitting at a separator (used to read an Age text back) |
| `decimal.dfy` | `Decimal` | `{}` on an unsigned integer, and reading it back |
| `utf8.dfy` | `Utf8` | UTF-8 encoding of one scalar value (section 3 of RFC 3629) and a decoder |
| `hex.dfy` | `Hex` | `{:X}` and `{:02x}`, and reading both back |
| `ucd.dfy` | `UnicodeData` | the lookups the tool makes into the Unicode Character Database |
| `attributes.dfy` | `Attributes` | `Display`, `try_from`, `pad_to`, `info_for` |
| `selectors.dfy` | `Selectors` | the format-string parse (`map(try_from).collect::<Result<Vec<_>,_>>()`) |
| `formatter.dfy` | `Formatter` | `print_unicode_info`, which here returns the line as a string |
| `driver.dfy` | `Driver` | `main` after option parsing: the error report, and one line per input character |

Dafny's `char` is a Unicode scalar value, the same as Rust's `char`. Strings
are `seq<char>`, and Rust's `{:w$}` width counts scalar values, as `|s|` does.

The Unicode Character Database is outside the model. A `Database` value holds
one total function per lookup: `Age::of`, `Block::of(..).name`,
`GeneralCategory::of`, the nine `unic_ucd::case` predicates and `Name::of`.
Every renderer and the formatter take it as a parameter. Every property proved
here holds whatever the tables say, with one exception: the lemmas about line
breaks (`Attributes.InfoNoNewline` and the line counts in `Driver`) assume that
no block name or character name holds a line break. The general categories are the
thirty of the Unicode Standard, each with its two-letter alias (`abbr_name`).

Imperative parts are methods proved equal to a specification function:

- `Attributes.InfoFor` equals `Info`. Its CodePoint arm (`CodePointInfo`)
  grows the digit string one leading `'0'` at a time in a `while` loop. Its
  Case arm (`CaseInfo`) pushes nine slots through `AppendCase`, the
  `append_case` closure.
- `Formatter.PrintUnicodeInfo` equals `Line`. It appends the fields in a loop,
  then the name column.

The properties are then proved about those functions.

Where the CLI help text and the code differ, the model follows the code:

- The CLI help (src/main.rs:21 and 23) gives the code point as `U+e621` and the
  age as `1.1.0`. The code prints upper-case digits and a `v` prefix (`v1.1.0`).

Two facts about the code alone that the model makes explicit:

- U+1F600 has five hex digits. The loop pads it to `U+01F600`
  (`CodePointExample`).
- The nine case predicates are total `fn(char) -> bool`, so
  `Database.hasProperty` is a total function.

## Model

| member | source | states |
|---|---|---|
| `Attributes.TryFrom` | src/main.rs:59-68 | a selector character parses to the attribute whose selector it is; any other character is returned as the error, and no attribute has it as its selector |
| `Attributes.TryFromSelector` | src/main.rs:60-66 | each attribute's selector parses back to that attribute (the table `p e a c b C` is one-to-one) |
| `Selectors.ParseFormat` | src/main.rs:155-159 | the `map(try_from).collect` over the format string, short-circuiting at the first `Err`; no contract of its own: `ParseFormatAccepts` and `ParseFormatRejects` state its meaning |
| `Selectors.ParseFormatAccepts` | src/main.rs:155-159 | the parse succeeds exactly when every character is a selector; then the list has the string's length and order, duplicates included, and element i is the attribute of character i |
| `Selectors.ParseFormatRejects` | src/main.rs:155-167 | when character i is the leftmost non-selector, the parse fails with exactly that character and gives no partial list |
| `Selectors.ParseFormatOf` | src/main.rs:155-159 | writing a list of attributes as selectors and parsing it gives the list back; the empty string gives the empty list |
| `Attributes.PadTo` | src/main.rs:73-82 | `pad_to`: widths 8, 10, 6, 2, 25 and none for Case; no contract of its own: `WidthsFit` states what the widths promise |
| `Attributes.WidthsFit` | src/main.rs:73-82 | only Case has no width; the CodePoint text fits 8, the Encoding text fits 10 and the Category text fits 2, for every character |
| `Attributes.PadHex` | src/main.rs:90-92 | the leading-zero loop as a recursion: add one `0` while the length is below 4 or odd; no contract of its own: `PadHexIsZeros` gives its closed form |
| `Attributes.CodePointText` | src/main.rs:86-95 | the CodePoint arm: `U+` and the padded `{:X}` digits; no contract of its own: `CodePointTextMeaning` states its meaning |
| `Attributes.PaddedDigitsValue` | src/main.rs:88-92 | the padded digit string has an even length of at least 4, is upper-case hexadecimal, and spells the scalar value |
| `Attributes.PaddedDigitsMinimal` | src/main.rs:89-92 | zeros are added only while needed: a padded string longer than 4 digits never starts with two zeros |
| `Attributes.PaddedDigitsBound` | src/main.rs:75 | every value below 16^6, which includes every scalar value, pads to at most 6 digits |
| `Attributes.CodePointTextMeaning` | src/main.rs:86-95 | the CodePoint text is `U+` and a body of at least 4 upper-case hex digits, of even count, that reads back as the scalar value and has no padding beyond what is needed; the text is at most 8 characters |
| `Attributes.PadHexIsZeros` | src/main.rs:90-92 | prefixing one zero at a time while the length is below 4 or odd adds exactly the zeros that bring the length to the padded length, and changes nothing else |
| `Attributes.CodePointInfo` | src/main.rs:86-95 | the leading-zero loop ends with exactly the text of CodePointText |
| `Attributes.EncodingText` | src/main.rs:96-102 | the Encoding arm: the UTF-8 octets as `{:02x}` pairs in angle brackets; no contract of its own: `EncodingTextMeaning` states its meaning |
| `Attributes.EncodingTextMeaning` | src/main.rs:96-102 | the Encoding text is `<`, two lower-case hex digits per UTF-8 octet, and `>`; its length is 2 * octets + 2, between 4 and 10; the pairs read back as the octets, which decode back to the character |
| `Attributes.CodePointExample` | src/main.rs:86-95 | U+1F600 renders as `U+01F600` |
| `Attributes.EncodingExample` | src/main.rs:96-102 | U+00E9 encodes as `<c3a9>` |
| `Attributes.AgeText` | src/main.rs:103-110 | the Age arm: `v<major>.<minor>.<micro>` or `(unknown version)`; no contract of its own: `VersionTextRoundTrip` and `AgeTextRoundTrip` state its meaning |
| `Attributes.VersionTextRoundTrip` | src/main.rs:105-106 | a known version renders as `v<major>.<minor>.<micro>`, which reads back as that version |
| `Attributes.AgeTextRoundTrip` | src/main.rs:103-110 | the Age text reads back as the lookup result; a missing age renders exactly `(unknown version)`; a known age starts with `v` |
| `Attributes.CategoryText` | src/main.rs:111-116 | the Category arm: the category's short alias; no contract of its own: `CategoryTextMeaning` states its meaning |
| `Attributes.CategoryTextMeaning` | src/main.rs:111-116 | the category text is two characters, and reading it back names the character's category |
| `UnicodeData.Abbr` | src/main.rs:115 | each general category's short alias has two letters, an upper-case one then a lower-case one |
| `UnicodeData.FromAbbrOfAbbr` | src/main.rs:115 | reading a category's alias back gives the category, so no two categories share an alias |
| `Attributes.BlockText` | src/main.rs:117-124 | the Block arm: `[<name>]` or `(unknown block)`; no contract of its own: `BlockTextRoundTrip` states its meaning |
| `Attributes.BlockTextRoundTrip` | src/main.rs:117-124 | a known block renders as `[<name>]`, which reads back as the name; a missing block renders exactly `(unknown block)` |
| `Attributes.Slots` | src/main.rs:129-144 | the case string after the first k `append_case` pushes has exactly k characters |
| `Attributes.CaseText` | src/main.rs:125-147 | the Case arm: the nine slots in parentheses; no contract of its own: `CaseTextMeaning` states its meaning |
| `Attributes.CaseTextMeaning` | src/main.rs:125-147 | the Case text is 11 characters long: `(`, nine slots, `)`; slot k holds the k-th marker of `i c f m l u t L U` exactly when the k-th predicate holds, and a space exactly when it does not |
| `Attributes.Slot` | src/main.rs:130-134 | the closure's test: the marker when the property holds, else a space; no contract of its own: `CaseTextMeaning` states its meaning |
| `Attributes.AppendCase` | src/main.rs:129-135 | the `append_case` closure pushes one character: the marker when the property holds, a space when it does not |
| `Attributes.CaseInfo` | src/main.rs:127-146 | the nine `append_case` pushes build exactly CaseText |
| `Attributes.Info` | src/main.rs:84-149 | `info_for` as a function: dispatches to the six arm texts; no contract of its own: `InfoNeverEmpty`, `InfoNoNewline` and `WidthsFit` state its properties |
| `Attributes.InfoFor` | src/main.rs:84-149 | `info_for` returns, for every attribute and character, the text the specification function Info gives |
| `Attributes.WidthsExceeded` | src/main.rs:76-78 | the Age and Block widths are not maxima: `v10.0.0` takes 7 characters against Age's 6, the fallbacks `(unknown version)` and `(unknown block)` take 17 and 15, and a block's text is its name plus two brackets |
| `Attributes.InfoNeverEmpty` | src/main.rs:84-149 | rendering is total and never yields fewer than two characters, fallbacks included |
| `Attributes.InfoNoNewline` | src/main.rs:84-149 | no rendered attribute contains a line break when the database's block name holds none |
| `Utf8.Encode` | src/main.rs:98 | a character encodes to 1 to 4 octets, the count set by its range as in RFC 3629; lead octets and continuation octets have the bit patterns of RFC 3629 |
| `Utf8.DecodeEncode` | src/main.rs:98 | decoding a character's octets gives the character back |
| `Hex.UpperHex` | src/main.rs:89 | `{:X}` yields at least one upper-case hex digit, with no leading zero unless the value is 0 |
| `Hex.ValueOfUpperHex` | src/main.rs:89 | reading the `{:X}` digits back gives the number |
| `Hex.UpperHexLength` | src/main.rs:75 | a number below 16^k has at most k hex digits |
| `Hex.LowerPairs` | src/main.rs:99 | the `map(..).collect::<String>()` of the octets: two lower-case hex digits per octet, 2 * octets long; `ParseLowerPairs` reads it back |
| `Hex.LowerPair` | src/main.rs:99 | `{:02x}` of an octet is exactly two lower-case digits spelling it |
| `Hex.ParseLowerPairs` | src/main.rs:99 | reading the concatenated pairs back gives the octets |
| `Decimal.Digits` | src/main.rs:106 | `{}` yields at least one decimal digit, with no leading zero unless the value is 0 |
| `Decimal.ValueOfDigits` | src/main.rs:106 | reading the digits back gives the number |
| `Formatter.Field` | src/main.rs:181-189 | one field: the rendered text, padded to the width when there is one and tight mode is off, then a space; no contract of its own: `FieldLayout` states its meaning |
| `Formatter.Fields` | src/main.rs:180-190 | the fields of a format list, in order; no contract of its own: `FieldsAppend`, `FieldsInOrder` and `TightFieldsLength` state its properties |
| `Formatter.NameText` | src/main.rs:191-202 | the name column: empty when suppressed, else `| <name>` or `| (unknown name)`; no contract of its own: `LineEnding` states it |
| `Formatter.Line` | src/main.rs:179-203 | the whole printed line: fields, name column, line break; no contract of its own: `LineEnding` and `Driver.LineIsOneLine` state its properties |
| `Formatter.PadRight` | src/main.rs:184 | `{:w$}` keeps the text whole at the front, adds only spaces, and makes the length the larger of the text's length and w |
| `Formatter.FieldLayout` | src/main.rs:182-189 | each field starts with the rendered text, uncut, and continues with spaces only; its length is the width plus one when padding applies (not tight, a width, a shorter text), otherwise the text's length plus one, so exactly one separator space follows |
| `Formatter.FieldsAppend` | src/main.rs:180-190 | the fields of two lists of attributes placed side by side are the fields of the joined list |
| `Formatter.FieldsInOrder` | src/main.rs:180-190 | the k-th attribute's field comes after the fields of the attributes before it and before those after it |
| `Formatter.TightFieldsLength` | src/main.rs:186-188 | in tight mode the fields add only one space each to the rendered texts |
| `Formatter.AlignedColumns` | src/main.rs:182-185 | with padding on and only `p`, `e`, `c` selected, the fields take the sum of width + 1 over the selected attributes, whatever the character: the columns line up on every line |
| `Formatter.LineEnding` | src/main.rs:191-202 | the line is the fields, then `| <name>` or `| (unknown name)`, or nothing when the name is suppressed, then a line break |
| `Formatter.FormatField` | src/main.rs:181-189 | one iteration renders the attribute and writes it padded to its width only when it has a width and tight mode is off, then one space |
| `Formatter.RenderFields` | src/main.rs:180-190 | the loop over the format list produces the fields of all attributes, in format order |
| `Formatter.PrintUnicodeInfo` | src/main.rs:179-203 | the line built field by field equals the specification function Line |
| `Driver.FieldsOfA` | src/main.rs:179-190 | format `pe` with padding on renders `A` as `U+0041   <41>       `, before the name column |
| `Driver.Run` | src/main.rs:155-175 | `main` after option parsing: an unknown selector gives `Unknown attribute <x>` on standard error and nothing else, otherwise the lines for every input character; no contract of its own: `RunRejects` and `RunLineCount` state its meaning |
| `Driver.Output` | src/main.rs:170-175 | the loop over input lines; no contract of its own: `OutputLineCount` counts its lines |
| `Driver.LinesFor` | src/main.rs:172-174 | the loop over one line's characters; no contract of its own: `OneLinePerCharacter` counts its lines |
| `Driver.ParsePe` | src/main.rs:155-159 | the format `pe` selects CodePoint, then Encoding |
| `Driver.RunRejects` | src/main.rs:155-167 | a format string with an unknown selector prints nothing for any input, and reports `Unknown attribute <x>` for the leftmost unknown x |
| `Driver.UnknownSelector` | src/main.rs:161-166 | format `z` with input `A` prints no line and reports `Unknown attribute z` |
| `Driver.LineIsOneLine` | src/main.rs:179-203 | a character's output holds exactly one line break when no block or character name holds a line break |
| `Driver.OneLinePerCharacter` | src/main.rs:172-174 | the output for one input line has one line per character, when no block or character name holds a line break |
| `Driver.OutputLineCount` | src/main.rs:170-175 | the output for all input lines has one line break per input character, summed over the lines, when no block or character name holds a line break |
| `Driver.RunLineCount` | src/main.rs:155-175 | with a valid format string, the run prints nothing on standard error and exactly one line per input character, when no block or character name holds a line break |

## Left out

- Option parsing with clap (`Options`, `Options::parse()`, src/main.rs:12-44 and 153) is library code. The format string and the two flags are plain parameters. The default format `pecb` is not modelled.
- Reading standard input (src/main.rs:169-171) is I/O. The input is a sequence of lines with their line breaks already removed. A read error, and the non-zero exit it causes, are not modelled.
- Writing with `print!`, `println!` and `eprintln!` is I/O. The line is returned as a string, and a run gives the text for standard output and for standard error. The exit status is not represented. Both paths the model covers exit with success.
- The stream driver's loops (src/main.rs:170-175) are modelled as functions that map over the characters (`Driver.LinesFor`, `Driver.Output`), not as methods with loops.
- The Unicode Character Database's contents (`Age::of`, `Block::of`, `GeneralCategory::of`, `Name::of`, the nine case predicates) are foreign table lookups. They are the fields of the `Database` parameter. Only the formatting of their results is modelled.
- The version components are `u16` in the library. They are modelled as `nat`, because only their decimal text matters here.
- The widths for Age (6) and Block (25) are not proved to fit, because they do not: `Attributes.WidthsExceeded` shows texts longer than them. `Formatter.AlignedColumns` is therefore stated only for `p`, `e` and `c`.
- The line that format `pe` prints for `A`, name included, is not stated as one lemma. `Driver.FieldsOfA` proves its fields part and `Formatter.LineEnding` proves the name column that follows.
