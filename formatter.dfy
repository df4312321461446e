/** `print_unicode_info`: one output line per character, built as a string. */
module Formatter {
  import opened Wrappers
  import opened Text
  import opened UnicodeData
  import opened Attributes

  /** `format!("{:w$}", s)` on a string: left-aligned in a field of at least
      `w` characters, padded with spaces and never cut. */
  function PadRight(s: string, w: nat): (r: string)
    ensures |r| == if |s| < w then w else |s|
    ensures r[..|s|] == s
    ensures forall i :: |s| <= i < |r| ==> r[i] == ' '
  {
    if |s| < w then s + Spaces(w - |s|) else s
  }

  /** One field of the line: the rendered attribute, padded to its width unless
      tight mode is on or it has none, then one separating space. */
  function Field(db: Database, d: Display, c: char, tight: bool): string
  {
    var info := Info(db, d, c);
    match (PadTo(d), tight)
    case (Some(w), false) => PadRight(info, w) + " "
    case _ => info + " "
  }

  /** The fields of all selected attributes, in the order selected. */
  function Fields(db: Database, fmts: seq<Display>, c: char, tight: bool): string
  {
    if fmts == [] then "" else Field(db, fmts[0], c, tight) + Fields(db, fmts[1..], c, tight)
  }

  /** The name column: nothing when suppressed, else `| ` and the name or the fallback. */
  function NameText(db: Database, c: char, noName: bool): string
  {
    if noName then ""
    else match db.name(c)
      case Some(name) => "| " + name
      case None => "| (unknown name)"
  }

  /** The whole line printed for one character, line break included. */
  function Line(db: Database, fmts: seq<Display>, c: char, noName: bool, tight: bool): string
  {
    Fields(db, fmts, c, tight) + NameText(db, c, noName) + "\n"
  }

  /** The fields of a one-attribute list are that attribute's field. */
  lemma SingleField(db: Database, d: Display, c: char, tight: bool)
    ensures Fields(db, [d], c, tight) == Field(db, d, c, tight)
  {
    FieldsCons(db, [d], c, tight);
    assert [d][1..] == [];
  }

  /** A non-empty list's fields are its first attribute's field, then the
      fields of the rest. */
  lemma FieldsCons(db: Database, fmts: seq<Display>, c: char, tight: bool)
    requires fmts != []
    ensures Fields(db, fmts, c, tight) == Field(db, fmts[0], c, tight) + Fields(db, fmts[1..], c, tight)
  {
  }

  /** The fields of a two-attribute list, side by side. */
  lemma TwoFields(db: Database, d: Display, e: Display, c: char, tight: bool)
    ensures Fields(db, [d, e], c, tight) == Field(db, d, c, tight) + Field(db, e, c, tight)
  {
    FieldsCons(db, [d, e], c, tight);
    assert [d, e][1..] == [e];
    SingleField(db, e, c, tight);
  }

  /** The fields of two lists of attributes side by side are the fields of the
      two lists joined. */
  lemma {:induction false} FieldsAppend(db: Database, a: seq<Display>, b: seq<Display>, c: char, tight: bool)
    ensures Fields(db, a + b, c, tight) == Fields(db, a, c, tight) + Fields(db, b, c, tight)
  {
    if a == [] {
      assert a + b == b;
    } else {
      assert (a + b)[1..] == a[1..] + b;
      FieldsAppend(db, a[1..], b, c, tight);
    }
  }

  /** The body of the loop in `print_unicode_info`: render, pad unless tight
      mode is on or the attribute has no width, add the separating space. */
  method FormatField(db: Database, fmt: Display, c: char, tight: bool) returns (field: string)
    ensures field == Field(db, fmt, c, tight)
  {
    var info := InfoFor(db, fmt, c);
    match (PadTo(fmt), tight) {
      case (Some(width), false) =>
        field := PadRight(info, width) + " ";
      case _ =>
        field := info + " ";
    }
  }

  /** Going one attribute further adds that attribute's field at the end. */
  lemma FieldsSnoc(db: Database, fmts: seq<Display>, i: nat, c: char, tight: bool)
    requires i < |fmts|
    ensures Fields(db, fmts[..i + 1], c, tight) == Fields(db, fmts[..i], c, tight) + Field(db, fmts[i], c, tight)
  {
    FieldsAppend(db, fmts[..i], [fmts[i]], c, tight);
    SingleField(db, fmts[i], c, tight);
    assert fmts[..i + 1] == fmts[..i] + [fmts[i]];
  }

  /** The loop of `print_unicode_info`: the fields of the selected attributes,
      appended one after another in format order. */
  method RenderFields(db: Database, c: char, fmts: seq<Display>, tight: bool)
    returns (line: string)
    ensures line == Fields(db, fmts, c, tight)
  {
    line := "";
    for i := 0 to |fmts|
      invariant line == Fields(db, fmts[..i], c, tight)
    {
      var field := FormatField(db, fmts[i], c, tight);
      FieldsSnoc(db, fmts, i, c, tight);
      line := line + field;
    }
    assert fmts[..|fmts|] == fmts;
  }

  /** `print_unicode_info`, with the output written to a string: the fields,
      then the name column and the line break. */
  method PrintUnicodeInfo(db: Database, c: char, fmts: seq<Display>, noName: bool, tight: bool)
    returns (line: string)
    ensures line == Line(db, fmts, c, noName, tight)
  {
    line := RenderFields(db, c, fmts, tight);
    ghost var fields := line;
    if noName {
      line := line + "\n";
    } else {
      match db.name(c) {
        case Some(name) =>
          line := line + "| " + name + "\n";
          assert line == fields + ("| " + name) + "\n";
        case None =>
          line := line + "| (unknown name)\n";
          assert line == fields + "| (unknown name)" + "\n";
      }
    }
  }

  /** Each field starts with the rendered attribute, uncut; it continues with
      spaces only, up to the width when padding applies and the text is
      shorter, and ends with exactly one separating space beyond that. */
  lemma FieldLayout(db: Database, d: Display, c: char, tight: bool)
    ensures var info := Info(db, d, c);
      && var f := Field(db, d, c, tight);
      && var padded := !tight && PadTo(d).Some? && |info| < PadTo(d).value;
      && |f| == (if padded then PadTo(d).value else |info|) + 1
      && f[..|info|] == info
      && (forall i :: |info| <= i < |f| ==> f[i] == ' ')
  {
    var info := Info(db, d, c);
    var f := Field(db, d, c, tight);
    if !tight && PadTo(d).Some? {
      var p := PadRight(info, PadTo(d).value);
      assert f == p + " ";
      assert f[..|info|] == p[..|info|];
    } else {
      assert f == info + " ";
    }
  }

  /** The k-th selected attribute's field sits between the fields of the
      attributes before it and those after it, so fields appear in the
      order selected. */
  lemma FieldsInOrder(db: Database, fmts: seq<Display>, c: char, tight: bool, k: nat)
    requires k < |fmts|
    ensures Fields(db, fmts, c, tight)
      == Fields(db, fmts[..k], c, tight) + Field(db, fmts[k], c, tight) + Fields(db, fmts[k + 1..], c, tight)
  {
    var pre, rest := fmts[..k], fmts[k + 1..];
    var tail := [fmts[k]] + rest;
    assert fmts == pre + tail;
    FieldsAppend(db, pre, tail, c, tight);
    FieldsCons(db, tail, c, tight);
    assert tail[0] == fmts[k] && tail[1..] == rest;
  }

  /** Total text length of the rendered attributes. */
  function InfoLength(db: Database, fmts: seq<Display>, c: char): nat
  {
    if fmts == [] then 0 else |Info(db, fmts[0], c)| + InfoLength(db, fmts[1..], c)
  }

  /** In tight mode nothing is added but one space per field. */
  lemma {:induction false} TightFieldsLength(db: Database, fmts: seq<Display>, c: char)
    ensures |Fields(db, fmts, c, true)| == InfoLength(db, fmts, c) + |fmts|
  {
    if fmts != [] {
      TightFieldsLength(db, fmts[1..], c);
    }
  }

  /** The attributes whose text always fits their declared width. */
  predicate IsBounded(d: Display) { d == CodePoint || d == Encoding || d == Category }

  /** The sum of the widths, plus separators, of a list of bounded attributes. */
  function ColumnsWidth(fmts: seq<Display>): nat
    requires forall i :: 0 <= i < |fmts| ==> IsBounded(fmts[i])
  {
    if fmts == [] then 0
    else
      assert IsBounded(fmts[0]);
      PadTo(fmts[0]).value + 1 + ColumnsWidth(fmts[1..])
  }

  /** With padding on and only CodePoint, Encoding and Category selected, the
      fields take the same number of characters whatever the character and
      whatever the database says: the name column lines up on every line. */
  lemma {:induction false} AlignedColumns(db: Database, fmts: seq<Display>, c: char)
    requires forall i :: 0 <= i < |fmts| ==> IsBounded(fmts[i])
    ensures |Fields(db, fmts, c, false)| == ColumnsWidth(fmts)
  {
    if fmts != [] {
      WidthsFit(db, fmts[0], c);
      FieldLayout(db, fmts[0], c, false);
      AlignedColumns(db, fmts[1..], c);
    }
  }

  /** The line ends with its line break, preceded by `| ` and the name, by
      `| (unknown name)` when the database has none, or directly by the
      fields when the name is suppressed. */
  lemma LineEnding(db: Database, fmts: seq<Display>, c: char, noName: bool, tight: bool)
    ensures var line := Line(db, fmts, c, noName, tight);
      && var fields := Fields(db, fmts, c, tight);
      && line[..|fields|] == fields
      && (noName ==> line == fields + "\n")
      && (!noName && db.name(c).None? ==> line[|fields|..] == "| (unknown name)\n")
      && (!noName && db.name(c).Some? ==> line[|fields|..] == "| " + db.name(c).value + "\n")
  {
    var line := Line(db, fmts, c, noName, tight);
    var fields := Fields(db, fmts, c, tight);
    assert line == fields + (NameText(db, c, noName) + "\n");
  }
}
