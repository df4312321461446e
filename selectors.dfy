/** The format-string parse in `main`: every character goes through
    `Display::try_from` and the results are collected into a
    `Result<Vec<Display>, char>`, which stops at the first failure. */
module Selectors {
  import opened Wrappers
  import opened Attributes

  predicate IsSelector(x: char) { TryFrom(x).Ok? }

  /** The collected parse: the attributes in order, or the first character
      that selects none. */
  function ParseFormat(format: string): Result<seq<Display>, char>
  {
    if format == [] then Ok([])
    else match TryFrom(format[0])
      case Err(x) => Err(x)
      case Ok(d) =>
        match ParseFormat(format[1..])
        case Err(x) => Err(x)
        case Ok(rest) => Ok([d] + rest)
  }

  /** The format string that selects a given list of attributes. */
  function FormatOf(fmts: seq<Display>): (format: string)
    ensures |format| == |fmts|
  {
    seq(|fmts|, i requires 0 <= i < |fmts| => Selector(fmts[i]))
  }

  /** The parse succeeds exactly when every character is a selector; then it
      keeps length and order, duplicates included, each character giving its
      own attribute. */
  lemma {:induction false} ParseFormatAccepts(format: string)
    ensures ParseFormat(format).Ok? <==> forall i :: 0 <= i < |format| ==> IsSelector(format[i])
    ensures ParseFormat(format).Ok? ==>
      var fmts := ParseFormat(format).value;
      |fmts| == |format| && forall i :: 0 <= i < |format| ==> TryFrom(format[i]) == Ok(fmts[i])
  {
    if format != [] {
      ParseFormatAccepts(format[1..]);
      if IsSelector(format[0]) && ParseFormat(format[1..]).Ok? {
        var fmts := ParseFormat(format).value;
        forall i | 0 <= i < |format|
          ensures TryFrom(format[i]) == Ok(fmts[i])
        {
          if i > 0 {
            assert format[i] == format[1..][i - 1];
          }
        }
      }
      if IsSelector(format[0]) && ParseFormat(format[1..]).Err? {
        var i :| 0 <= i < |format[1..]| && !IsSelector(format[1..][i]);
        assert !IsSelector(format[i + 1]);
      } else if IsSelector(format[0]) {
        forall i | 0 <= i < |format| ensures IsSelector(format[i]) {
          if i > 0 {
            assert format[i] == format[1..][i - 1];
          }
        }
      }
    }
  }

  /** A failed parse reports the leftmost character that is not a selector,
      and nothing else. */
  lemma {:induction false} ParseFormatRejects(format: string, i: nat)
    requires i < |format| && !IsSelector(format[i])
    requires forall j :: 0 <= j < i ==> IsSelector(format[j])
    ensures ParseFormat(format) == Err(format[i])
  {
    if i > 0 {
      assert IsSelector(format[0]);
      forall j | 0 <= j < i - 1 ensures IsSelector(format[1..][j]) {
        assert format[1..][j] == format[j + 1];
      }
      ParseFormatRejects(format[1..], i - 1);
    }
  }

  /** Writing a list of attributes as selectors and parsing it back gives the list. */
  lemma {:induction false} ParseFormatOf(fmts: seq<Display>)
    ensures ParseFormat(FormatOf(fmts)) == Ok(fmts)
  {
    if fmts != [] {
      assert FormatOf(fmts)[1..] == FormatOf(fmts[1..]);
      TryFromSelector(fmts[0]);
      ParseFormatOf(fmts[1..]);
      assert [fmts[0]] + fmts[1..] == fmts;
    }
  }
}
