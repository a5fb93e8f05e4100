/**
 * The emission protocol of qdiilog 2.2.1 on values: what one statement
 * `log << t1 << ... << tn;` writes, computed from the chain of temporary
 * `Logger` objects the shift operators create, and the same text described
 * directly in terms of prefix, tokens and suffix.
 */
module Emission {
  import opened Options

  /** `Logger::Decoration`: the text written before and after a statement. */
  datatype Decoration = Decoration(prependText: string, postpendText: string)

  /** One right operand of `<<`: a value already rendered by `ostringstream`, or `std::endl`. */
  datatype Token = Str(text: string) | EndLine

  /** The flags and decoration of one `Logger` object (its output is tracked separately). */
  datatype View = View(decorated: bool, muted: bool, shouldPostpend: bool, decoration: Option<Decoration>)

  /** What `treat` writes before the message: the prepend text of a decorated logger. */
  function Prefix(v: View): string
  {
    if v.decorated && v.decoration.Some? then v.decoration.value.prependText else ""
  }

  /** The prepend text of a decoration, empty when there is none. */
  function PrependText(d: Option<Decoration>): string
  {
    if d.Some? then d.value.prependText else ""
  }

  /** The postpend text of a decoration, empty when there is none. */
  function Suffix(d: Option<Decoration>): string
  {
    if d.Some? then d.value.postpendText else ""
  }

  /** The copy constructor: flags and decoration copied, `m_shouldPostpend` set. */
  function Copy(v: View): View
  {
    View(v.decorated, v.muted, true, v.decoration)
  }

  /** The logger `treat` returns: undecorated, postpending, carrying a non-empty suffix only. */
  function Treated(v: View): View
  {
    View(false, v.muted, true,
         if v.decoration.Some? && |v.decoration.value.postpendText| > 0
         then Some(Decoration("", v.decoration.value.postpendText)) else None)
  }

  /** The operand after `dontPostpend()`. */
  function Closed(v: View): View
  {
    v.(shouldPostpend := false)
  }

  /** What one `operator<<` writes to the operand's output; `ok` is the level gate. */
  function Written(v: View, ok: bool, t: Token): string
  {
    match t
    case Str(m) => if !v.muted && ok then Prefix(v) + m else ""
    case EndLine => if !v.muted && ok then "\n" else ""
  }

  /** The temporary one `operator<<` returns. */
  function Returned(v: View, t: Token): View
  {
    match t
    case Str(_) => if !v.muted then Treated(v) else Copy(v)
    case EndLine => Copy(v)
  }

  /** What the destructor writes: the suffix, if postpending and the suffix is non-empty. */
  function DtorWritten(v: View): string
  {
    if v.shouldPostpend && v.decoration.Some? && |v.decoration.value.postpendText| > 0
    then v.decoration.value.postpendText else ""
  }

  /** The right-most temporary after shifting `toks` into a logger with view `v` (`v` itself when none). */
  function Current(v: View, toks: seq<Token>): View
  {
    if toks == [] then v else Returned(Current(v, toks[..|toks| - 1]), toks[|toks| - 1])
  }

  /** Everything the shift operators write, left to right. */
  function ShiftText(v: View, ok: bool, toks: seq<Token>): string
  {
    if toks == [] then ""
    else
      var init := toks[..|toks| - 1];
      ShiftText(v, ok, init) + Written(Current(v, init), ok, toks[|toks| - 1])
  }

  /**
   * The whole statement: the shifts, then the destruction of the
   * temporaries from right to left. Every temporary but the last was the
   * left operand of a later shift, which cleared its postpend flag, so only
   * the last one can write.
   */
  function StatementText(v: View, ok: bool, toks: seq<Token>): string
  {
    ShiftText(v, ok, toks) + (if toks == [] then "" else DtorWritten(Current(v, toks)))
  }

  /** One more shift extends the text and the right-most temporary by one step. */
  lemma ShiftStep(v: View, ok: bool, toks: seq<Token>, i: nat, prior: string)
    requires i < |toks|
    ensures ShiftText(v, ok, toks[..i + 1]) == ShiftText(v, ok, toks[..i]) + Written(Current(v, toks[..i]), ok, toks[i])
    ensures prior + ShiftText(v, ok, toks[..i + 1])
         == (prior + ShiftText(v, ok, toks[..i])) + Written(Current(v, toks[..i]), ok, toks[i])
    ensures Current(v, toks[..i + 1]) == Returned(Current(v, toks[..i]), toks[i])
  {
    assert toks[..i + 1][..i] == toks[..i];
  }

  /** `operator()(cond)`: a fresh muted, decorated logger, assigned from the operand when `cond`. */
  function CallView(v: View, cond: bool): View
  {
    if cond then View(v.decorated, v.muted, false, v.decoration)
    else View(true, true, false, None)
  }

  /**
   * `log(cond) << t1 << ... << tn;`: the statement on the logger the call
   * returned, then that logger's own destruction, with its flag cleared.
   */
  function ConditionalText(v: View, ok: bool, cond: bool, toks: seq<Token>): string
  {
    StatementText(CallView(v, cond), ok, toks) + DtorWritten(Closed(CallView(v, cond)))
  }

  // ---------------------------------------------------------------------
  // The reference description: prefix before the first value, tokens in
  // order, suffix once at the end.

  predicate HasValue(toks: seq<Token>)
  {
    exists i :: 0 <= i < |toks| && toks[i].Str?
  }

  /**
   * The tokens in order, `EndLine` as '\n', with `prefix` placed before the
   * first value token.
   */
  function Rendered(toks: seq<Token>, prefix: string): string
  {
    if toks == [] then ""
    else
      var init := toks[..|toks| - 1];
      Rendered(init, prefix) +
      match toks[|toks| - 1]
      case EndLine => "\n"
      case Str(m) => (if HasValue(init) then "" else prefix) + m
  }

  /** The values of `toks` concatenated. */
  function Concat(toks: seq<Token>): string
    requires forall i :: 0 <= i < |toks| ==> toks[i].Str?
  {
    if toks == [] then "" else Concat(toks[..|toks| - 1]) + toks[|toks| - 1].text
  }

  /** What the right-most temporary keeps of the first logger. */
  lemma {:induction false} CurrentFacts(v: View, toks: seq<Token>)
    requires toks != []
    ensures Current(v, toks).muted == v.muted
    ensures Current(v, toks).shouldPostpend
    ensures Suffix(Current(v, toks).decoration) == Suffix(v.decoration)
    ensures !v.muted ==> Prefix(Current(v, toks)) == if HasValue(toks) then "" else Prefix(v)
    ensures v.muted ==> Current(v, toks) == Copy(v)
  {
    var init := toks[..|toks| - 1];
    var last := toks[|toks| - 1];
    if init == [] {
      assert toks == [last];
      assert HasValue(toks) <==> last.Str?;
    } else {
      CurrentFacts(v, init);
      assert HasValue(toks) <==> HasValue(init) || last.Str? by {
        if HasValue(init) {
          var i :| 0 <= i < |init| && init[i].Str?;
          assert toks[i] == init[i];
        }
        if HasValue(toks) && !last.Str? {
          var i :| 0 <= i < |toks| && toks[i].Str?;
          assert init[i] == toks[i];
        }
      }
    }
  }

  /**
   * What a statement writes: when the logger is not muted and its level
   * passes, the tokens with the prefix before the first value; and, in every
   * case, the suffix once at the end. The suffix is not gated: a filtered-out
   * or muted statement still writes a non-empty suffix of its logger.
   */
  lemma {:induction false} StatementDecoration(v: View, ok: bool, toks: seq<Token>)
    ensures StatementText(v, ok, toks)
         == (if ok && !v.muted then Rendered(toks, Prefix(v)) else "")
            + (if toks == [] then "" else Suffix(v.decoration))
  {
    if toks != [] {
      ShiftTextRendered(v, ok, toks);
      CurrentFacts(v, toks);
    }
  }

  /** The shift operators alone write the rendered tokens (or nothing). */
  lemma {:induction false} ShiftTextRendered(v: View, ok: bool, toks: seq<Token>)
    ensures ShiftText(v, ok, toks) == if ok && !v.muted then Rendered(toks, Prefix(v)) else ""
  {
    if toks != [] {
      var init := toks[..|toks| - 1];
      var last := toks[|toks| - 1];
      ShiftTextRendered(v, ok, init);
      if init != [] {
        CurrentFacts(v, init);
      }
    }
  }

  /** With only values, the statement is prefix, values, suffix. */
  lemma {:induction false} RenderedValues(toks: seq<Token>, prefix: string)
    requires toks != []
    requires forall i :: 0 <= i < |toks| ==> toks[i].Str?
    ensures Rendered(toks, prefix) == prefix + Concat(toks)
  {
    var init := toks[..|toks| - 1];
    if init == [] {
      assert !HasValue(init);
    } else {
      assert HasValue(init) by { assert init[0].Str?; }
      assert Rendered(init, prefix) == prefix + Concat(init) by { RenderedValues(init, prefix); }
    }
  }

  /**
   * `log << a << b << c;` writes prefix, a, b, c, then the suffix: the
   * prefix once at the start and the suffix once at the end.
   */
  lemma PrefixOnceSuffixOnce(v: View, toks: seq<Token>)
    requires toks != [] && !v.muted
    requires forall i :: 0 <= i < |toks| ==> toks[i].Str?
    ensures StatementText(v, true, toks) == Prefix(v) + Concat(toks) + Suffix(v.decoration)
  {
    StatementDecoration(v, true, toks);
    RenderedValues(toks, Prefix(v));
  }

  /** A statement below the threshold writes nothing but the suffix. */
  lemma FilteredStatementWritesSuffix(v: View, toks: seq<Token>)
    requires toks != []
    ensures StatementText(v, false, toks) == Suffix(v.decoration)
  {
    StatementDecoration(v, false, toks);
  }

  /** `log << std::endl;` writes the line end and the suffix, and no prefix. */
  lemma EndLineAlone(v: View)
    requires !v.muted
    ensures StatementText(v, true, [EndLine]) == "\n" + Suffix(v.decoration)
  {
    StatementDecoration(v, true, [EndLine]);
    assert [EndLine][..0] == [];
  }

  /** A leading `std::endl` leaves the prefix to the first value: `log << endl << a;`. */
  lemma EndLineThenValue(v: View, m: string)
    requires !v.muted
    ensures StatementText(v, true, [EndLine, Str(m)]) == "\n" + Prefix(v) + m + Suffix(v.decoration)
  {
    var toks := [EndLine, Str(m)];
    assert toks[..1] == [EndLine];
    assert [EndLine][..0] == [];
    var one: seq<Token> := [EndLine];
    assert one[..|one| - 1] == [];
    var c1 := Current(v, one);
    assert c1 == Returned(Current(v, []), EndLine);
    assert c1 == Copy(v);
    assert ShiftText(v, true, [EndLine]) == "\n";
    assert ShiftText(v, true, toks) == "\n" + Prefix(v) + m;
    assert Current(v, toks) == Treated(c1);
  }

  /** `log(false) << ...;` writes nothing at all. */
  lemma ConditionalFalseSilent(v: View, ok: bool, toks: seq<Token>)
    ensures ConditionalText(v, ok, false, toks) == ""
  {
    StatementDecoration(CallView(v, false), ok, toks);
  }

  /** `log(true) << ...;` writes what `log << ...;` writes. */
  lemma ConditionalTrueSame(v: View, ok: bool, toks: seq<Token>)
    ensures ConditionalText(v, ok, true, toks) == StatementText(v, ok, toks)
  {
    StatementDecoration(CallView(v, true), ok, toks);
    StatementDecoration(v, ok, toks);
  }
}
