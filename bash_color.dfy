/**
 * `setBashColor` of qdiilog 2.2.1: builds the ECMA-48 "select graphic
 * rendition" control sequences (section 8.3.117 of ECMA-48) that colour a
 * terminal, and a reader of those strings that inverts it.
 */
module BashColors {
  import opened Options

  /** The `BashColor` enumeration; `NoColor` is its `NONE = 0`. */
  datatype BashColor = NoColor | Black | Red | Green | Yellow | Blue | Magenta | Cyan | White

  /** The enumerator's integer value. */
  function Code(c: BashColor): (n: nat)
    ensures n <= 8
    ensures n == 0 <==> c == NoColor
  {
    match c
    case NoColor => 0
    case Black => 1
    case Red => 2
    case Green => 3
    case Yellow => 4
    case Blue => 5
    case Magenta => 6
    case Cyan => 7
    case White => 8
  }

  function ColorOfCode(n: nat): BashColor
    requires 1 <= n <= 8
  {
    if n == 1 then Black else if n == 2 then Red else if n == 3 then Green
    else if n == 4 then Yellow else if n == 5 then Blue else if n == 6 then Magenta
    else if n == 7 then Cyan else White
  }

  const Esc: char := 27 as char

  function DigitChar(d: nat): (c: char)
    requires d < 10
    ensures '0' <= c <= '9'
  {
    ('0' as int + d) as char
  }

  /** Decimal rendering of a non-negative integer, as `operator<<(int)` writes it. */
  function Decimal(n: nat): (s: string)
    ensures |s| >= 1
    decreases n
  {
    if n < 10 then [DigitChar(n)] else Decimal(n / 10) + [DigitChar(n % 10)]
  }

  /** The attributes a sequence produced by `SetBashColor` selects. */
  datatype Rendition = Rendition(foreground: BashColor, background: BashColor, bold: bool)

  /** The leading sequence: bold (parameter 1) or reset (parameter 0). */
  function Lead(bold: bool): string
  {
    [Esc, '['] + (if bold then "1" else "0") + "m"
  }

  /** A colour's SGR parameter: 29 + code for a foreground, 39 + code for a background. */
  function Parameter(c: BashColor, base: nat): string
  {
    Decimal(base + Code(c))
  }

  /**
   * The parameter list of the colour sequence: 29 + foreground if one is
   * given, then ';' when the background is given too, then 39 + background
   * if one is given.
   */
  function ColorParameters(foreground: BashColor, background: BashColor): string
  {
    (if foreground != NoColor then
       Parameter(foreground, 29) + (if Code(background) != 0 then ";" else "")
     else "")
    + (if background != NoColor then Parameter(background, 39) else "")
  }

  /** The second sequence, present when a colour is given. */
  function ColorSequence(foreground: BashColor, background: BashColor): string
  {
    if foreground != NoColor || background != NoColor then
      [Esc, '['] + ColorParameters(foreground, background) + "m"
    else ""
  }

  /**
   * The string `setBashColor(_foreground, _background, _bold)` returns: the
   * leading sequence, then, when a colour is given, a second sequence
   * carrying the colour parameters.
   */
  function SetBashColor(foreground: BashColor, background: BashColor, bold: bool): string
  {
    Lead(bold) + ColorSequence(foreground, background)
  }

  /** Reads one SGR colour parameter "<tens><k>" with k in 0..7. */
  function ParseParameter(s: string, tens: char): Option<BashColor>
  {
    if |s| == 2 && s[0] == tens && '0' <= s[1] <= '7' then
      Some(ColorOfCode(s[1] as int - '0' as int + 1))
    else None
  }

  /** Reads the parameter list of the colour sequence: "3k", "4k" or "3k;4k". */
  function ParseColors(p: string): Option<(BashColor, BashColor)>
  {
    if |p| == 5 && p[2] == ';' then
      match (ParseParameter(p[..2], '3'), ParseParameter(p[3..], '4'))
      case (Some(f), Some(b)) => Some((f, b))
      case _ => None
    else
      match ParseParameter(p, '3')
      case Some(f) => Some((f, NoColor))
      case None =>
        match ParseParameter(p, '4')
        case Some(b) => Some((NoColor, b))
        case None => None
  }

  /** Reads what follows the leading sequence: nothing, or one colour sequence. */
  function ParseTail(rest: string): Option<(BashColor, BashColor)>
  {
    if rest == [] then Some((NoColor, NoColor))
    else if |rest| < 3 || rest[0] != Esc || rest[1] != '[' || rest[|rest| - 1] != 'm' then None
    else ParseColors(rest[2..|rest| - 1])
  }

  /** The reader of what `SetBashColor` writes; it accepts nothing else. */
  function ParseBashColor(s: string): Option<Rendition>
  {
    if |s| < 4 || s[0] != Esc || s[1] != '[' || s[3] != 'm' || (s[2] != '0' && s[2] != '1') then
      None
    else
      match ParseTail(s[4..])
      case Some((f, b)) => Some(Rendition(f, b, s[2] == '1'))
      case None => None
  }

  lemma CodeOfColor(n: nat)
    requires 1 <= n <= 8
    ensures ColorOfCode(n) != NoColor && Code(ColorOfCode(n)) == n
  {
  }

  lemma ColorOfCodeOf(c: BashColor)
    requires c != NoColor
    ensures ColorOfCode(Code(c)) == c
  {
  }

  /** A colour parameter prints as two digits "<tens><code - 1>". */
  lemma ParameterDigits(c: BashColor, base: nat, tens: char)
    requires c != NoColor
    requires (base == 29 && tens == '3') || (base == 39 && tens == '4')
    ensures Parameter(c, base) == [tens, DigitChar(Code(c) - 1)]
  {
    var n := base + Code(c);
    assert 10 <= n < 100;
    assert n / 10 == (if base == 29 then 3 else 4);
    assert n % 10 == Code(c) - 1;
  }

  /** A colour parameter reads back as that colour. */
  lemma ParameterRoundTrip(c: BashColor, base: nat, tens: char)
    requires c != NoColor
    requires (base == 29 && tens == '3') || (base == 39 && tens == '4')
    ensures ParseParameter(Parameter(c, base), tens) == Some(c)
  {
    ParameterDigits(c, base, tens);
    var d := DigitChar(Code(c) - 1);
    assert d as int - '0' as int + 1 == Code(c);
    ColorOfCodeOf(c);
  }

  /** What `ParseParameter` accepts is the parameter of the colour it returns. */
  lemma ParameterSound(s: string, c: BashColor, base: nat, tens: char)
    requires (base == 29 && tens == '3') || (base == 39 && tens == '4')
    requires ParseParameter(s, tens) == Some(c)
    ensures c != NoColor && Parameter(c, base) == s
  {
    var k := s[1] as int - '0' as int + 1;
    CodeOfColor(k);
    ParameterDigits(c, base, tens);
    assert DigitChar(Code(c) - 1) == s[1];
    assert s == [s[0], s[1]];
  }

  /** "3f;4b" reads back as both colours. */
  lemma BothColorsRoundTrip(foreground: BashColor, background: BashColor)
    requires foreground != NoColor && background != NoColor
    ensures ParseColors(ColorParameters(foreground, background)) == Some((foreground, background))
  {
    var p := ColorParameters(foreground, background);
    var fp := Parameter(foreground, 29);
    var bp := Parameter(background, 39);
    ParameterDigits(foreground, 29, '3');
    ParameterDigits(background, 39, '4');
    assert p == fp + ";" + bp;
    assert |p| == 5 && p[2] == ';';
    assert p[..2] == fp;
    assert p[3..] == bp;
    ParameterRoundTrip(foreground, 29, '3');
    ParameterRoundTrip(background, 39, '4');
  }

  lemma ColorsRoundTrip(foreground: BashColor, background: BashColor)
    requires foreground != NoColor || background != NoColor
    ensures ParseColors(ColorParameters(foreground, background)) == Some((foreground, background))
  {
    var p := ColorParameters(foreground, background);
    if foreground != NoColor && background != NoColor {
      BothColorsRoundTrip(foreground, background);
    } else if foreground != NoColor {
      assert p == Parameter(foreground, 29);
      ParameterDigits(foreground, 29, '3');
      ParameterRoundTrip(foreground, 29, '3');
    } else {
      assert p == Parameter(background, 39);
      ParameterDigits(background, 39, '4');
      ParameterRoundTrip(background, 39, '4');
      assert ParseParameter(p, '3') == None;
    }
  }

  /** "3f;4b" is the parameter list of the two colours it names. */
  lemma BothColorsSound(p: string, foreground: BashColor, background: BashColor)
    requires |p| == 5 && p[2] == ';'
    requires ParseParameter(p[..2], '3') == Some(foreground) && ParseParameter(p[3..], '4') == Some(background)
    ensures foreground != NoColor && background != NoColor
    ensures ColorParameters(foreground, background) == p
  {
    ParameterSound(p[..2], foreground, 29, '3');
    ParameterSound(p[3..], background, 39, '4');
    var q := Parameter(foreground, 29) + ";" + Parameter(background, 39);
    assert ColorParameters(foreground, background) == q;
    assert |q| == 5;
    forall i | 0 <= i < 5
      ensures q[i] == p[i]
    {
      if i < 2 {
        assert q[i] == p[..2][i];
      } else if i > 2 {
        assert q[i] == p[3..][i - 3];
      }
    }
  }

  lemma ColorsSound(p: string, foreground: BashColor, background: BashColor)
    requires ParseColors(p) == Some((foreground, background))
    ensures foreground != NoColor || background != NoColor
    ensures ColorParameters(foreground, background) == p
  {
    if |p| == 5 && p[2] == ';' {
      BothColorsSound(p, foreground, background);
    } else if ParseParameter(p, '3').Some? {
      ParameterSound(p, foreground, 29, '3');
    } else {
      ParameterSound(p, background, 39, '4');
    }
  }

  /** The colour sequence reads back as its two colours. */
  lemma TailRoundTrip(foreground: BashColor, background: BashColor)
    ensures ParseTail(ColorSequence(foreground, background)) == Some((foreground, background))
  {
    if foreground != NoColor || background != NoColor {
      var p := ColorParameters(foreground, background);
      var t := [Esc, '['] + p + "m";
      assert t == ColorSequence(foreground, background);
      assert |t| == |p| + 3;
      assert t[0] == Esc && t[1] == '[' && t[|t| - 1] == 'm';
      assert t[2..|t| - 1] == p;
      ColorsRoundTrip(foreground, background);
    }
  }

  /** What `ParseTail` accepts is the colour sequence of the colours it returns. */
  lemma TailSound(rest: string, foreground: BashColor, background: BashColor)
    requires ParseTail(rest) == Some((foreground, background))
    ensures ColorSequence(foreground, background) == rest
  {
    if rest != [] {
      var n := |rest|;
      var p := rest[2..n - 1];
      ColorsSound(p, foreground, background);
      var t := [Esc, '['] + p + "m";
      assert t == ColorSequence(foreground, background);
      assert |t| == n;
      forall i | 0 <= i < n
        ensures t[i] == rest[i]
      {
        if 2 <= i < n - 1 {
          assert t[i] == p[i - 2];
        }
      }
    }
  }

  /** Every sequence starts with the bold or the reset sequence. */
  lemma SetBashColorLead(foreground: BashColor, background: BashColor, bold: bool)
    ensures |SetBashColor(foreground, background, bold)| >= 4
    ensures SetBashColor(foreground, background, bold)[..4]
         == [Esc, '[', if bold then '1' else '0', 'm']
  {
  }

  /** Without colours only the leading sequence is written. */
  lemma SetBashColorNoColors(bold: bool)
    ensures SetBashColor(NoColor, NoColor, bold) == [Esc, '[', if bold then '1' else '0', 'm']
  {
  }

  /**
   * With both colours the second sequence is "ESC [ 3f ; 4b m", where f and
   * b are the colours' ECMA-48 indices (code - 1, black = 0 ... white = 7).
   */
  lemma SetBashColorBoth(foreground: BashColor, background: BashColor, bold: bool)
    requires foreground != NoColor && background != NoColor
    ensures SetBashColor(foreground, background, bold)
         == Lead(bold) + [Esc, '[', '3', DigitChar(Code(foreground) - 1), ';',
                          '4', DigitChar(Code(background) - 1), 'm']
  {
    ParameterDigits(foreground, 29, '3');
    ParameterDigits(background, 39, '4');
    var p := ColorParameters(foreground, background);
    assert p == [ '3', DigitChar(Code(foreground) - 1), ';', '4', DigitChar(Code(background) - 1)];
    assert ColorSequence(foreground, background) == [Esc, '['] + p + "m";
  }

  /** Reading back what `SetBashColor` wrote recovers its three arguments. */
  lemma SetBashColorRoundTrip(foreground: BashColor, background: BashColor, bold: bool)
    ensures ParseBashColor(SetBashColor(foreground, background, bold))
         == Some(Rendition(foreground, background, bold))
  {
    var t := ColorSequence(foreground, background);
    var s := Lead(bold) + t;
    assert s[4..] == t;
    TailRoundTrip(foreground, background);
  }

  /** `ParseBashColor` accepts only strings `SetBashColor` can produce. */
  lemma ParseBashColorSound(s: string, r: Rendition)
    requires ParseBashColor(s) == Some(r)
    ensures SetBashColor(r.foreground, r.background, r.bold) == s
  {
    assert s == Lead(r.bold) + s[4..];
    TailSound(s[4..], r.foreground, r.background);
  }

  /** Distinct arguments give distinct strings. */
  lemma SetBashColorInjective(f1: BashColor, b1: BashColor, bold1: bool,
                              f2: BashColor, b2: BashColor, bold2: bool)
    requires SetBashColor(f1, b1, bold1) == SetBashColor(f2, b2, bold2)
    ensures f1 == f2 && b1 == b2 && bold1 == bold2
  {
    SetBashColorRoundTrip(f1, b1, bold1);
    SetBashColorRoundTrip(f2, b2, bold2);
  }
}
