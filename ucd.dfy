/** The parts of the Unicode Character Database the tool consults. The
    tables themselves are outside the model: a `Database` value carries one
    total lookup per property, and every result the tool prints is a
    function of those lookups. */
module UnicodeData {
  import opened Wrappers

  /** A Unicode version number, as `Age::of(c).actual()` returns it. */
  datatype Version = Version(major: nat, minor: nat, micro: nat)

  /** The thirty general categories of the Unicode Standard. */
  datatype GeneralCategory =
    | UppercaseLetter | LowercaseLetter | TitlecaseLetter | ModifierLetter | OtherLetter
    | NonspacingMark | SpacingMark | EnclosingMark
    | DecimalNumber | LetterNumber | OtherNumber
    | ConnectorPunctuation | DashPunctuation | OpenPunctuation | ClosePunctuation
    | InitialPunctuation | FinalPunctuation | OtherPunctuation
    | MathSymbol | CurrencySymbol | ModifierSymbol | OtherSymbol
    | SpaceSeparator | LineSeparator | ParagraphSeparator
    | Control | Format | Surrogate | PrivateUse | Unassigned

  /** The two-letter property value alias, `abbr_name()`. */
  function Abbr(g: GeneralCategory): (r: string)
    ensures |r| == 2 && 'A' <= r[0] <= 'Z' && 'a' <= r[1] <= 'z'
  {
    match g
    case UppercaseLetter => "Lu"
    case LowercaseLetter => "Ll"
    case TitlecaseLetter => "Lt"
    case ModifierLetter => "Lm"
    case OtherLetter => "Lo"
    case NonspacingMark => "Mn"
    case SpacingMark => "Mc"
    case EnclosingMark => "Me"
    case DecimalNumber => "Nd"
    case LetterNumber => "Nl"
    case OtherNumber => "No"
    case ConnectorPunctuation => "Pc"
    case DashPunctuation => "Pd"
    case OpenPunctuation => "Ps"
    case ClosePunctuation => "Pe"
    case InitialPunctuation => "Pi"
    case FinalPunctuation => "Pf"
    case OtherPunctuation => "Po"
    case MathSymbol => "Sm"
    case CurrencySymbol => "Sc"
    case ModifierSymbol => "Sk"
    case OtherSymbol => "So"
    case SpaceSeparator => "Zs"
    case LineSeparator => "Zl"
    case ParagraphSeparator => "Zp"
    case Control => "Cc"
    case Format => "Cf"
    case Surrogate => "Cs"
    case PrivateUse => "Co"
    case Unassigned => "Cn"
  }

  /** The category an alias names, if any. */
  function FromAbbr(s: string): Option<GeneralCategory>
  {
    match s
    case "Lu" => Some(UppercaseLetter)
    case "Ll" => Some(LowercaseLetter)
    case "Lt" => Some(TitlecaseLetter)
    case "Lm" => Some(ModifierLetter)
    case "Lo" => Some(OtherLetter)
    case "Mn" => Some(NonspacingMark)
    case "Mc" => Some(SpacingMark)
    case "Me" => Some(EnclosingMark)
    case "Nd" => Some(DecimalNumber)
    case "Nl" => Some(LetterNumber)
    case "No" => Some(OtherNumber)
    case "Pc" => Some(ConnectorPunctuation)
    case "Pd" => Some(DashPunctuation)
    case "Ps" => Some(OpenPunctuation)
    case "Pe" => Some(ClosePunctuation)
    case "Pi" => Some(InitialPunctuation)
    case "Pf" => Some(FinalPunctuation)
    case "Po" => Some(OtherPunctuation)
    case "Sm" => Some(MathSymbol)
    case "Sc" => Some(CurrencySymbol)
    case "Sk" => Some(ModifierSymbol)
    case "So" => Some(OtherSymbol)
    case "Zs" => Some(SpaceSeparator)
    case "Zl" => Some(LineSeparator)
    case "Zp" => Some(ParagraphSeparator)
    case "Cc" => Some(Control)
    case "Cf" => Some(Format)
    case "Cs" => Some(Surrogate)
    case "Co" => Some(PrivateUse)
    case "Cn" => Some(Unassigned)
    case _ => None
  }

  /** The alias names its category, so distinct categories never share one. */
  lemma FromAbbrOfAbbr(g: GeneralCategory)
    ensures FromAbbr(Abbr(g)) == Some(g)
  {
  }

  /** The nine binary case properties the Case column shows. */
  datatype CaseProperty =
    | CaseIgnorable | Cased
    | ChangesWhenCasefolded | ChangesWhenCasemapped
    | ChangesWhenLowercased | ChangesWhenUppercased | ChangesWhenTitlecased
    | Lowercase | Uppercase

  /** The lookups: `Age::of`, `Block::of(..).name`, `GeneralCategory::of`, the
      nine `unic_ucd::case` predicates and `Name::of`. Age, block and name may
      be absent; category and the case predicates are total. */
  datatype Database = Database(
    age: char -> Option<Version>,
    block: char -> Option<string>,
    category: char -> GeneralCategory,
    hasProperty: (CaseProperty, char) -> bool,
    name: char -> Option<string>)
}
