/**
 * The terminal formatting helper of sapp: the `ANSIColor` raw-value table and
 * `String.ansi(_:)`, which prefixes a string with the codes of the given
 * colours and terminates it with the reset code.
 *
 * The codes are control sequences of ECMA-48: CSI (ESC '[') followed by
 * parameter bytes and one final byte (section 5.4 of ECMA-48, which also
 * allows intermediate bytes before the final byte; no code here has any,
 * and the model leaves them out); the colour and
 * style codes are SGR, Select Graphic Rendition (section 8.3.117), whose final
 * byte is 'm'.
 */
module Ansi {
  import opened Wrappers

  /** ESC, the first character of every code. */
  const Esc: char := '\U{1B}'

  /** The Control Sequence Introducer ESC '['. */
  const Csi: string := [Esc, '[']

  /** The raw value of `ANSIColor.reset`: SGR with parameter 0. */
  const ResetCode: string := "\U{1B}[0m"

  datatype ANSIColor =
    // Basic text formatting
    | Reset | Bold | Dim | Italic | Underline | Blink | Inverse | Hidden | Strikethrough
    // Foreground colours
    | Black | Red | Green | Yellow | Blue | Magenta | Cyan | White | DefaultText
    // Bright foreground colours
    | BrightBlack | BrightRed | BrightGreen | BrightYellow
    | BrightBlue | BrightMagenta | BrightCyan | BrightWhite
    // Background colours
    | BlackBackground | RedBackground | GreenBackground | YellowBackground
    | BlueBackground | MagentaBackground | CyanBackground | WhiteBackground | DefaultBackground
    // Bright background colours
    | BrightBlackBackground | BrightRedBackground | BrightGreenBackground | BrightYellowBackground
    | BrightBlueBackground | BrightMagentaBackground | BrightCyanBackground | BrightWhiteBackground
    // Cursor control
    | CursorUp | CursorDown | CursorRight | CursorLeft | CursorPosition | ClearLine | ClearScreen

  /** The cursor codes, whose `{n}` and `{line};{column}` placeholders are literal text. */
  predicate HasPlaceholder(c: ANSIColor) {
    c.CursorUp? || c.CursorDown? || c.CursorRight? || c.CursorLeft? || c.CursorPosition?
  }

  /** Reset and the text attributes: SGR with one digit. */
  predicate IsStyle(c: ANSIColor) {
    c.Reset? || c.Bold? || c.Dim? || c.Italic? || c.Underline? || c.Blink? || c.Inverse? || c.Hidden? || c.Strikethrough?
  }

  /** SGR 30 to 37 and 39. */
  predicate IsForeground(c: ANSIColor) {
    c.Black? || c.Red? || c.Green? || c.Yellow? || c.Blue? || c.Magenta? || c.Cyan? || c.White? || c.DefaultText?
  }

  /** SGR 90 to 97. */
  predicate IsBrightForeground(c: ANSIColor) {
    c.BrightBlack? || c.BrightRed? || c.BrightGreen? || c.BrightYellow?
    || c.BrightBlue? || c.BrightMagenta? || c.BrightCyan? || c.BrightWhite?
  }

  /** SGR 40 to 47 and 49. */
  predicate IsBackground(c: ANSIColor) {
    c.BlackBackground? || c.RedBackground? || c.GreenBackground? || c.YellowBackground?
    || c.BlueBackground? || c.MagentaBackground? || c.CyanBackground? || c.WhiteBackground? || c.DefaultBackground?
  }

  /** SGR 100 to 107. */
  predicate IsBrightBackground(c: ANSIColor) {
    c.BrightBlackBackground? || c.BrightRedBackground? || c.BrightGreenBackground? || c.BrightYellowBackground?
    || c.BrightBlueBackground? || c.BrightMagentaBackground? || c.BrightCyanBackground? || c.BrightWhiteBackground?
  }

  /** The codes that are SGR sequences: every style and colour code. */
  predicate IsSgr(c: ANSIColor) {
    IsStyle(c) || IsForeground(c) || IsBrightForeground(c) || IsBackground(c) || IsBrightBackground(c)
  }

  /** A final byte of an ECMA-48 control sequence: 04/00 to 07/14. */
  predicate IsFinalByte(ch: char) {
    '\U{40}' <= ch <= '\U{7E}'
  }

  /** A parameter byte of an ECMA-48 control sequence: 03/00 to 03/15. */
  predicate IsParameterByte(ch: char) {
    '\U{30}' <= ch <= '\U{3F}'
  }

  /** A well-formed control sequence without intermediate bytes: CSI, parameter bytes, one final byte. */
  predicate IsControlSequence(s: string) {
    && |s| >= 3
    && s[..2] == Csi
    && (forall i :: 2 <= i < |s| - 1 ==> IsParameterByte(s[i]))
    && IsFinalByte(s[|s| - 1])
  }

  /** `ANSIColor.rawValue`: the escape text of each case. */
  function RawValue(c: ANSIColor): (r: string)
    ensures |r| >= 4 && r[..2] == Csi
  {
    match c
    case Reset => "\U{1B}[0m"
    case Bold => "\U{1B}[1m"
    case Dim => "\U{1B}[2m"
    case Italic => "\U{1B}[3m"
    case Underline => "\U{1B}[4m"
    case Blink => "\U{1B}[5m"
    case Inverse => "\U{1B}[7m"
    case Hidden => "\U{1B}[8m"
    case Strikethrough => "\U{1B}[9m"
    case Black => "\U{1B}[30m"
    case Red => "\U{1B}[31m"
    case Green => "\U{1B}[32m"
    case Yellow => "\U{1B}[33m"
    case Blue => "\U{1B}[34m"
    case Magenta => "\U{1B}[35m"
    case Cyan => "\U{1B}[36m"
    case White => "\U{1B}[37m"
    case DefaultText => "\U{1B}[39m"
    case BrightBlack => "\U{1B}[90m"
    case BrightRed => "\U{1B}[91m"
    case BrightGreen => "\U{1B}[92m"
    case BrightYellow => "\U{1B}[93m"
    case BrightBlue => "\U{1B}[94m"
    case BrightMagenta => "\U{1B}[95m"
    case BrightCyan => "\U{1B}[96m"
    case BrightWhite => "\U{1B}[97m"
    case BlackBackground => "\U{1B}[40m"
    case RedBackground => "\U{1B}[41m"
    case GreenBackground => "\U{1B}[42m"
    case YellowBackground => "\U{1B}[43m"
    case BlueBackground => "\U{1B}[44m"
    case MagentaBackground => "\U{1B}[45m"
    case CyanBackground => "\U{1B}[46m"
    case WhiteBackground => "\U{1B}[47m"
    case DefaultBackground => "\U{1B}[49m"
    case BrightBlackBackground => "\U{1B}[100m"
    case BrightRedBackground => "\U{1B}[101m"
    case BrightGreenBackground => "\U{1B}[102m"
    case BrightYellowBackground => "\U{1B}[103m"
    case BrightBlueBackground => "\U{1B}[104m"
    case BrightMagentaBackground => "\U{1B}[105m"
    case BrightCyanBackground => "\U{1B}[106m"
    case BrightWhiteBackground => "\U{1B}[107m"
    case CursorUp => "\U{1B}[{n}A"
    case CursorDown => "\U{1B}[{n}B"
    case CursorRight => "\U{1B}[{n}C"
    case CursorLeft => "\U{1B}[{n}D"
    case CursorPosition => "\U{1B}[{line};{column}H"
    case ClearLine => "\U{1B}[2K"
    case ClearScreen => "\U{1B}[2J"
  }

  /**
   * `ANSIColor(rawValue:)`, the failable initialiser Swift synthesises for a
   * raw-value enum: the case whose raw value is `s`, if there is one. It reads
   * the text after CSI by its length and its final character, so that each
   * case is reached along one path.
   */
  function FromRawValue(s: string): (r: Option<ANSIColor>)
  {
    if |s| < 3 || s[..2] != Csi then None
    else
      var b := s[2..];
      if |b| == 2 && b[1] == 'm' then FromSgrDigit(b[0])
      else if |b| == 2 && b[0] == '2' && b[1] == 'K' then Some(ClearLine)
      else if |b| == 2 && b[0] == '2' && b[1] == 'J' then Some(ClearScreen)
      else if |b| == 3 && b[2] == 'm' then FromSgrPair(b[0], b[1])
      else if |b| == 4 && b[0] == '1' && b[1] == '0' && b[3] == 'm' then FromBrightBackground(b[2])
      else if |b| == 4 && b[..3] == "{n}" then FromCursorFinal(b[3])
      else if b == "{line};{column}H" then Some(CursorPosition)
      else None
  }

  /** The single-digit SGR parameters: reset and the text attributes. */
  function FromSgrDigit(d: char): Option<ANSIColor> {
    match d
    case '0' => Some(Reset)
    case '1' => Some(Bold)
    case '2' => Some(Dim)
    case '3' => Some(Italic)
    case '4' => Some(Underline)
    case '5' => Some(Blink)
    case '7' => Some(Inverse)
    case '8' => Some(Hidden)
    case '9' => Some(Strikethrough)
    case _ => None
  }

  /** The units digit of the foreground colours 30 to 37 and the default 39. */
  function FromForeground(d: char): Option<ANSIColor> {
    match d
    case '0' => Some(Black)
    case '1' => Some(Red)
    case '2' => Some(Green)
    case '3' => Some(Yellow)
    case '4' => Some(Blue)
    case '5' => Some(Magenta)
    case '6' => Some(Cyan)
    case '7' => Some(White)
    case '9' => Some(DefaultText)
    case _ => None
  }

  /** The units digit of the background colours 40 to 47 and the default 49. */
  function FromBackground(d: char): Option<ANSIColor> {
    match d
    case '0' => Some(BlackBackground)
    case '1' => Some(RedBackground)
    case '2' => Some(GreenBackground)
    case '3' => Some(YellowBackground)
    case '4' => Some(BlueBackground)
    case '5' => Some(MagentaBackground)
    case '6' => Some(CyanBackground)
    case '7' => Some(WhiteBackground)
    case '9' => Some(DefaultBackground)
    case _ => None
  }

  /** The units digit of the bright foreground colours 90 to 97. */
  function FromBrightForeground(d: char): Option<ANSIColor> {
    match d
    case '0' => Some(BrightBlack)
    case '1' => Some(BrightRed)
    case '2' => Some(BrightGreen)
    case '3' => Some(BrightYellow)
    case '4' => Some(BrightBlue)
    case '5' => Some(BrightMagenta)
    case '6' => Some(BrightCyan)
    case '7' => Some(BrightWhite)
    case _ => None
  }

  /** The units digit of the bright background colours 100 to 107. */
  function FromBrightBackground(d: char): Option<ANSIColor> {
    match d
    case '0' => Some(BrightBlackBackground)
    case '1' => Some(BrightRedBackground)
    case '2' => Some(BrightGreenBackground)
    case '3' => Some(BrightYellowBackground)
    case '4' => Some(BrightBlueBackground)
    case '5' => Some(BrightMagentaBackground)
    case '6' => Some(BrightCyanBackground)
    case '7' => Some(BrightWhiteBackground)
    case _ => None
  }

  /** The two-digit SGR parameters: the tens digit selects the group. */
  function FromSgrPair(tens: char, units: char): Option<ANSIColor> {
    match tens
    case '3' => FromForeground(units)
    case '4' => FromBackground(units)
    case '9' => FromBrightForeground(units)
    case _ => None
  }

  /** The cursor movements `{n}A` to `{n}D`. */
  function FromCursorFinal(f: char): Option<ANSIColor> {
    match f
    case 'A' => Some(CursorUp)
    case 'B' => Some(CursorDown)
    case 'C' => Some(CursorRight)
    case 'D' => Some(CursorLeft)
    case _ => None
  }

  /** Every raw value decodes back to its own case. */
  lemma RawValueRoundTrip(c: ANSIColor)
    ensures FromRawValue(RawValue(c)) == Some(c)
  {
    if IsStyle(c) {
      StyleCodes(c);
    } else if IsForeground(c) {
      ForegroundCodes(c);
    } else if IsBrightForeground(c) {
      BrightForegroundCodes(c);
    } else if IsBackground(c) {
      BackgroundCodes(c);
    } else if IsBrightBackground(c) {
      BrightBackgroundCodes(c);
    } else {
      CursorAndEraseCodes(c);
    }
  }

  /**
   * The style and colour codes are SGR control sequences, ending in 'm'; the
   * erase codes are control sequences too; every code ends in a final byte.
   */
  lemma RawValueForm(c: ANSIColor)
    ensures IsFinalByte(RawValue(c)[|RawValue(c)| - 1])
    ensures IsSgr(c) ==> RawValue(c)[|RawValue(c)| - 1] == 'm' && IsControlSequence(RawValue(c))
    ensures c.ClearLine? || c.ClearScreen? ==> IsControlSequence(RawValue(c))
  {
    if IsStyle(c) {
      StyleCodes(c);
    } else if IsForeground(c) {
      ForegroundCodes(c);
    } else if IsBrightForeground(c) {
      BrightForegroundCodes(c);
    } else if IsBackground(c) {
      BackgroundCodes(c);
    } else if IsBrightBackground(c) {
      BrightBackgroundCodes(c);
    } else {
      CursorAndEraseCodes(c);
    }
  }

  lemma StyleCodes(c: ANSIColor)
    requires IsStyle(c)
    ensures FromRawValue(RawValue(c)) == Some(c)
    ensures RawValue(c)[|RawValue(c)| - 1] == 'm' && IsControlSequence(RawValue(c))
  {
  }

  lemma ForegroundCodes(c: ANSIColor)
    requires IsForeground(c)
    ensures FromRawValue(RawValue(c)) == Some(c)
    ensures RawValue(c)[|RawValue(c)| - 1] == 'm' && IsControlSequence(RawValue(c))
  {
  }

  lemma BrightForegroundCodes(c: ANSIColor)
    requires IsBrightForeground(c)
    ensures FromRawValue(RawValue(c)) == Some(c)
    ensures RawValue(c)[|RawValue(c)| - 1] == 'm' && IsControlSequence(RawValue(c))
  {
  }

  lemma BackgroundCodes(c: ANSIColor)
    requires IsBackground(c)
    ensures FromRawValue(RawValue(c)) == Some(c)
    ensures RawValue(c)[|RawValue(c)| - 1] == 'm' && IsControlSequence(RawValue(c))
  {
  }

  lemma BrightBackgroundCodes(c: ANSIColor)
    requires IsBrightBackground(c)
    ensures FromRawValue(RawValue(c)) == Some(c)
    ensures RawValue(c)[|RawValue(c)| - 1] == 'm' && IsControlSequence(RawValue(c))
  {
  }

  lemma CursorAndEraseCodes(c: ANSIColor)
    requires !IsSgr(c)
    ensures FromRawValue(RawValue(c)) == Some(c)
    ensures IsFinalByte(RawValue(c)[|RawValue(c)| - 1])
    ensures c.ClearLine? || c.ClearScreen? ==> IsControlSequence(RawValue(c))
  {
    if c.CursorPosition? {
      assert RawValue(c)[2..] == "{line};{column}H";
    }
  }

  /** Whatever `FromRawValue` decodes, it decodes from that case's raw value. */
  lemma FromRawValueSound(s: string)
    ensures FromRawValue(s).Some? ==> RawValue(FromRawValue(s).value) == s
  {
    if |s| >= 3 && s[..2] == Csi {
      var b := s[2..];
      assert s == Csi + b;
      if |b| == 2 {
        ShortParametersSound(b);
      } else if |b| == 3 {
        PairParametersSound(b);
      } else if |b| == 4 {
        LongParametersSound(b);
      }
    }
  }

  /** The two-character bodies: SGR digits and the erase codes. */
  lemma ShortParametersSound(b: string)
    requires |b| == 2
    ensures FromRawValue(Csi + b).Some? ==> RawValue(FromRawValue(Csi + b).value) == Csi + b
  {
    assert (Csi + b)[2..] == b;
    if b[1] == 'm' {
      assert b == [b[0], 'm'];
      SgrDigitSound(b[0]);
    } else if b[0] == '2' {
      assert b == ['2', b[1]];
    }
  }

  /** The three-character bodies: two-digit SGR parameters. */
  lemma PairParametersSound(b: string)
    requires |b| == 3
    ensures FromRawValue(Csi + b).Some? ==> RawValue(FromRawValue(Csi + b).value) == Csi + b
  {
    assert (Csi + b)[2..] == b;
    if b[2] == 'm' {
      assert b == [b[0], b[1], 'm'];
      SgrPairSound(b[0], b[1]);
    }
  }

  /** The four-character bodies: bright backgrounds and cursor movements. */
  lemma LongParametersSound(b: string)
    requires |b| == 4
    ensures FromRawValue(Csi + b).Some? ==> RawValue(FromRawValue(Csi + b).value) == Csi + b
  {
    assert (Csi + b)[2..] == b;
    if b[0] == '1' && b[1] == '0' && b[3] == 'm' {
      assert b == ['1', '0', b[2], 'm'];
      BrightBackgroundSound(b[2]);
    } else if b[..3] == "{n}" {
      assert b == "{n}" + [b[3]];
      CursorSound(b[3]);
    }
  }

  lemma SgrDigitSound(d: char)
    ensures FromSgrDigit(d).Some? ==> RawValue(FromSgrDigit(d).value) == Csi + [d, 'm']
  {
  }

  lemma SgrPairSound(t: char, u: char)
    ensures FromSgrPair(t, u).Some? ==> RawValue(FromSgrPair(t, u).value) == Csi + [t, u, 'm']
  {
    match t
    case '3' => ForegroundSound(u);
    case '4' => BackgroundSound(u);
    case '9' => BrightForegroundSound(u);
    case _ =>
  }

  lemma ForegroundSound(u: char)
    ensures FromForeground(u).Some? ==> RawValue(FromForeground(u).value) == Csi + ['3', u, 'm']
  {
  }

  lemma BackgroundSound(u: char)
    ensures FromBackground(u).Some? ==> RawValue(FromBackground(u).value) == Csi + ['4', u, 'm']
  {
  }

  lemma BrightForegroundSound(u: char)
    ensures FromBrightForeground(u).Some? ==> RawValue(FromBrightForeground(u).value) == Csi + ['9', u, 'm']
  {
  }

  lemma BrightBackgroundSound(u: char)
    ensures FromBrightBackground(u).Some? ==> RawValue(FromBrightBackground(u).value) == Csi + ['1', '0', u, 'm']
  {
  }

  lemma CursorSound(f: char)
    ensures FromCursorFinal(f).Some? ==> RawValue(FromCursorFinal(f).value) == Csi + "{n}" + [f]
  {
  }

  /** `ANSIColor` raw values are pairwise distinct. */
  lemma RawValueInjective(a: ANSIColor, b: ANSIColor)
    ensures RawValue(a) == RawValue(b) ==> a == b
  {
    RawValueRoundTrip(a);
    RawValueRoundTrip(b);
  }

  /**
   * A raw value is a well-formed control sequence exactly when it has no
   * placeholder: the cursor codes carry '{', which is not a parameter byte,
   * so a terminal does not read them as the intended movement.
   */
  lemma ControlSequenceIffNoPlaceholder(c: ANSIColor)
    ensures IsControlSequence(RawValue(c)) <==> !HasPlaceholder(c)
  {
    RawValueForm(c);
    if HasPlaceholder(c) {
      assert RawValue(c)[2] == '{';
    }
  }

  /** `[String].joined()`: the parts concatenated with no separator. */
  function Joined(parts: seq<string>): (r: string)
  {
    if parts == [] then "" else parts[0] + Joined(parts[1..])
  }

  /** `colors.map { $0.rawValue }`. */
  function RawValues(colors: seq<ANSIColor>): (r: seq<string>)
  {
    seq(|colors|, i requires 0 <= i < |colors| => RawValue(colors[i]))
  }

  /**
   * `s.ansi(colors...)`: the colour codes in argument order, then `s`
   * unchanged, then the reset code.
   */
  function Ansi(s: string, colors: seq<ANSIColor>): (r: string)
    ensures |r| >= |s| + |ResetCode|
    ensures r[|r| - |ResetCode|..] == ResetCode
    ensures r[|r| - |ResetCode| - |s|..|r| - |ResetCode|] == s
  {
    Joined(RawValues(colors)) + s + RawValue(Reset)
  }

  /** The summed length of some strings. */
  function TotalLength(parts: seq<string>): nat
  {
    if parts == [] then 0 else |parts[0]| + TotalLength(parts[1..])
  }

  /** The summed length of the raw values of `colors`. */
  function CodesLength(colors: seq<ANSIColor>): nat
  {
    TotalLength(RawValues(colors))
  }

  /**
   * The joined string has the summed length, and `parts[i]` sits right
   * after the parts before it.
   */
  lemma {:induction false} JoinedPartAt(parts: seq<string>, i: nat)
    requires i < |parts|
    ensures |Joined(parts)| == TotalLength(parts)
    ensures TotalLength(parts[..i + 1]) == TotalLength(parts[..i]) + |parts[i]| <= TotalLength(parts)
    ensures Joined(parts)[TotalLength(parts[..i])..TotalLength(parts[..i + 1])] == parts[i]
  {
    var rest := parts[1..];
    assert parts == [parts[0]] + rest;
    if i == 0 {
      assert parts[..1] == [parts[0]];
      assert parts[..0] == [];
      assert parts[..1][1..] == [];
      if rest == [] {
      } else {
        JoinedPartAt(rest, 0);
      }
    } else {
      JoinedPartAt(rest, i - 1);
      assert parts[..i][1..] == rest[..i - 1];
      assert parts[..i + 1][1..] == rest[..i];
    }
  }

  /** The result is as long as the colour codes, `s` and the reset code together. */
  lemma AnsiLength(s: string, colors: seq<ANSIColor>)
    ensures |Ansi(s, colors)| == CodesLength(colors) + |s| + |ResetCode|
  {
    if colors != [] {
      JoinedPartAt(RawValues(colors), 0);
    }
  }

  /** The result begins with the raw values of `colors`, in argument order. */
  lemma AnsiCodeAt(s: string, colors: seq<ANSIColor>, i: nat)
    requires i < |colors|
    ensures CodesLength(colors[..i]) <= CodesLength(colors[..i + 1]) <= |Ansi(s, colors)|
    ensures Ansi(s, colors)[CodesLength(colors[..i])..CodesLength(colors[..i + 1])] == RawValue(colors[i])
  {
    var parts := RawValues(colors);
    JoinedPartAt(parts, i);
    assert RawValues(colors[..i]) == parts[..i];
    assert RawValues(colors[..i + 1]) == parts[..i + 1];
    var j := Joined(parts);
    assert Ansi(s, colors)[..|j|] == j;
  }

  /** With no colours, `s.ansi()` is `s` followed by the reset code. */
  lemma AnsiWithoutColours(s: string)
    ensures Ansi(s, []) == s + ResetCode
  {
    assert RawValues([]) == [];
  }

  /**
   * The inverse of `Ansi` for known colours: the text between the colour
   * codes and the reset code, if `r` has that shape.
   */
  function Unwrap(r: string, colors: seq<ANSIColor>): (s: Option<string>)
  {
    var codes := Joined(RawValues(colors));
    if |r| >= |codes| + |ResetCode| && r[..|codes|] == codes && r[|r| - |ResetCode|..] == ResetCode
    then Some(r[|codes|..|r| - |ResetCode|])
    else None
  }

  /** Unwrapping a formatted string gives back the original text. */
  lemma UnwrapAnsi(s: string, colors: seq<ANSIColor>)
    ensures Unwrap(Ansi(s, colors), colors) == Some(s)
  {
    var codes := Joined(RawValues(colors));
    var r := Ansi(s, colors);
    assert r == codes + s + ResetCode;
    assert r[..|codes|] == codes;
    assert r[|codes|..|r| - |ResetCode|] == s;
  }

  /** Formatting with the same colours never maps two texts to one. */
  lemma AnsiInjective(s: string, t: string, colors: seq<ANSIColor>)
    ensures Ansi(s, colors) == Ansi(t, colors) ==> s == t
  {
    UnwrapAnsi(s, colors);
    UnwrapAnsi(t, colors);
  }
}
