/**
 * qdiilog3: the third design of the logger. A `logger<level>` holds the
 * output, the prepend and append texts and a disabled flag; a statement
 * `log << m0 << t1 << ... << tn;` is a chain of `receiver` temporaries that
 * all point back at the logger. A receiver that was never the left operand
 * of a value shift calls `signal_end` when it is destroyed.
 *
 * The `const char *` texts are `Option<string>` (`None` is the null
 * pointer); the output is a nullable `Sink`.
 */
module Qlog3 {
  import opened Options
  import opened Loglevels
  import opened Sinks
  import opened Emission

  /**
   * The `loglevel` constants of this version: `disabled` is 0 and the
   * severities count up from 1, so each level sits one place further than
   * in the enumeration of version 2.2.1, with `disable` wrapped around to 0.
   */
  function LevelConstant(l: Loglevel): (n: nat)
    ensures n == (Rank(l) + 1) % 6
    ensures n == 0 <==> l == Disable
  {
    match l
    case Disable => 0
    case Debug => 1
    case Trace => 2
    case Info => 3
    case Warning => 4
    case Error => 5
  }

  /** The constants are distinct. */
  lemma LevelConstantInjective(a: Loglevel, b: Loglevel)
    requires LevelConstant(a) == LevelConstant(b)
    ensures a == b
  {
  }

  /** What one token writes: the value itself, or '\n' for `std::endl`. */
  function Piece(t: Token): string
  {
    match t
    case Str(m) => m
    case EndLine => "\n"
  }

  /** The tokens after the first value, in order. */
  function Body(toks: seq<Token>): string
  {
    if toks == [] then "" else Body(toks[..|toks| - 1]) + Piece(toks[|toks| - 1])
  }

  lemma BodyStep(toks: seq<Token>, i: nat)
    requires i < |toks|
    ensures Body(toks[..i + 1]) == Body(toks[..i]) + Piece(toks[i])
  {
    assert toks[..i + 1][..i] == toks[..i];
  }

  /** The text of a `const char *`, empty for the null pointer. */
  function TextOf(p: Option<string>): string
  {
    if p.Some? then p.value else ""
  }

  /** `s` written `n` times. */
  function Repeat(s: string, n: nat): string
  {
    if n == 0 then "" else Repeat(s, n - 1) + s
  }

  /** The number of `std::endl` tokens. */
  function EndLines(toks: seq<Token>): nat
  {
    if toks == [] then 0 else (if toks[0].EndLine? then 1 else 0) + EndLines(toks[1..])
  }

  /**
   * The receivers `k` ... `|toks|` of a chain that were never treated:
   * receiver j (the one returned by the shift before `toks[j]`) is treated
   * exactly when `toks[j]` is a value; the right-most one never is.
   */
  function Ends(toks: seq<Token>, k: nat): nat
    requires k <= |toks| + 1
    decreases |toks| + 1 - k
  {
    if k == |toks| + 1 then 0
    else (if k == |toks| || toks[k].EndLine? then 1 else 0) + Ends(toks, k + 1)
  }

  /** The untreated receivers from `k` on: the right-most one and one per `std::endl` from `toks[k]` on. */
  lemma {:induction false} EndsSuffix(toks: seq<Token>, k: nat)
    requires k <= |toks|
    ensures Ends(toks, k) == 1 + EndLines(toks[k..])
    decreases |toks| - k
  {
    if k < |toks| {
      EndsSuffix(toks, k + 1);
      assert toks[k..][1..] == toks[k + 1..];
    }
  }

  /**
   * `signal_end` runs once for the right-most receiver and once more for
   * each `std::endl` in the chain.
   */
  lemma SignalEndCount(toks: seq<Token>)
    ensures Ends(toks, 0) == 1 + EndLines(toks)
  {
    EndsSuffix(toks, 0);
    assert toks[0..] == toks;
  }

  /**
   * The text of `log << m0 << toks...;` on a logger with an output:
   * nothing when disabled; otherwise the prepend text (if any) before the
   * first value, the values and line ends in order, and the prepend text
   * once more for every `signal_end`.
   */
  function StatementText3(disabled: bool, prepend: Option<string>, m0: string, toks: seq<Token>): string
  {
    if disabled then ""
    else TextOf(prepend) + m0 + Body(toks) + (if prepend.Some? then Repeat(prepend.value, Ends(toks, 0)) else "")
  }

  /**
   * Whether the statement stays clear of undefined behaviour: `signal_end`
   * writes through the output without testing it, which is a null
   * dereference when the logger is enabled, has a prepend text and no
   * output.
   */
  predicate StatementDefined(disabled: bool, hasOutput: bool, prepend: Option<string>)
  {
    disabled || prepend.None? || hasOutput
  }

  // ---------------------------------------------------------------------

  /** One `logger<level>`. */
  class Logger3 {
    var disabled: bool
    var output: Sink?
    var prepend: Option<string>
    var append: Option<string>

    /** `logger( _disabled )`: no output and no texts. */
    constructor (disabled: bool)
      ensures this.disabled == disabled && output == null && prepend == None && append == None
    {
      this.disabled := disabled;
      output := null;
      prepend := None;
      append := None;
    }

    /** The copy constructor copies all four members. */
    constructor Copy(src: Logger3)
      ensures disabled == src.disabled && output == src.output
      ensures prepend == src.prepend && append == src.append
    {
      disabled := src.disabled;
      output := src.output;
      prepend := src.prepend;
      append := src.append;
    }

    /** `setOutput`: takes the address of a stream, so the output is never null afterwards. */
    method SetOutput(out: Sink)
      modifies this`output
      ensures output == out
    {
      output := out;
    }

    /** `append`: stores the text; no member of this version reads it. */
    method Append(txt: Option<string>)
      modifies this`append
      ensures append == txt
    {
      append := txt;
    }

    /** `prepend`: stores the text. */
    method Prepend(txt: Option<string>)
      modifies this`prepend
      ensures prepend == txt
    {
      prepend := txt;
    }

    /**
     * `treat( message, firstPart )`: with an output and not disabled, the
     * prepend text (first part only) and then the message.
     */
    method Treat(msg: string, firstPart: bool)
      modifies output
      ensures output != null ==>
                output.text == old(output.text)
                               + (if !disabled then (if firstPart then TextOf(prepend) else "") + msg else "")
    {
      if !disabled && output != null {
        if firstPart && prepend.Some? {
          output.Write(prepend.value);
        }
        output.Write(msg);
      }
    }

    /**
     * `signal_end`: writes the prepend text when not disabled. The output is
     * not checked for null; `defined` is false where the source dereferences a null
     * output, and the model then writes nothing.
     */
    method SignalEnd() returns (defined: bool)
      modifies output
      ensures defined == StatementDefined(disabled, output != null, prepend)
      ensures output != null ==>
                output.text == old(output.text) + (if !disabled && prepend.Some? then prepend.value else "")
    {
      defined := true;
      if !disabled && prepend.Some? {
        if output == null {
          defined := false;
        } else {
          output.Write(prepend.value);
        }
      }
    }

    /** `signal( std::endl )`: a line end when not disabled and there is an output. */
    method Signal()
      modifies output
      ensures output != null ==> output.text == old(output.text) + (if !disabled then "\n" else "")
    {
      if !disabled && output != null {
        output.Write("\n");
      }
    }

    /** `operator()( cond )`: a copy that is disabled exactly when `cond` is false. */
    method Call(cond: bool) returns (r: Logger3)
      ensures fresh(r)
      ensures r.disabled == !cond && r.output == output && r.prepend == prepend && r.append == append
    {
      r := new Logger3.Copy(this);
      r.disabled := !cond;
    }
  }

  /** One `receiver<level>` temporary. */
  class Receiver {
    var treated: bool
    const logger: Logger3
    const muted: bool

    /** `receiver( _logger, _muted )`: not yet treated. */
    constructor (logger: Logger3, muted: bool)
      ensures !treated && this.logger == logger && this.muted == muted
    {
      treated := false;
      this.logger := logger;
      this.muted := muted;
    }

    /** The copy constructor: same logger and muting, but not treated. */
    constructor Copy(src: Receiver)
      ensures !treated && logger == src.logger && muted == src.muted
    {
      treated := false;
      logger := src.logger;
      muted := src.muted;
    }

    /** `~receiver`: an untreated receiver calls `signal_end`; `defined` as there. */
    method Destroy() returns (defined: bool)
      modifies logger.output
      ensures defined == (treated || StatementDefined(logger.disabled, logger.output != null, logger.prepend))
      ensures logger.output != null ==>
                logger.output.text == old(logger.output.text)
                                      + (if !treated && !logger.disabled && logger.prepend.Some?
                                         then logger.prepend.value else "")
    {
      defined := true;
      if !treated {
        defined := logger.SignalEnd();
      }
    }

    /** `signal( std::endl )`: forwarded to the logger unless muted. */
    method Signal()
      modifies logger.output
      ensures logger.output != null ==>
                logger.output.text == old(logger.output.text) + (if !muted && !logger.disabled then "\n" else "")
    {
      if !muted {
        logger.Signal();
      }
    }

    /**
     * `treat( message, firstPart )`: marks this receiver treated, forwards
     * the message unless muted, and returns an untreated copy.
     */
    method Treat(msg: string, firstPart: bool) returns (r: Receiver)
      modifies this`treated, logger.output
      ensures treated && fresh(r)
      ensures !r.treated && r.logger == logger && r.muted == muted
      ensures logger.output != null ==>
                logger.output.text == old(logger.output.text)
                                      + (if !muted && !logger.disabled
                                         then (if firstPart then TextOf(logger.prepend) else "") + msg else "")
    {
      treated := true;
      if !muted {
        logger.Treat(msg, firstPart);
      }
      r := new Receiver.Copy(this);
    }
  }

  /**
   * `operator<<( logger, message )`: a receiver on the logger treats the
   * message as the first part and is destroyed, treated, inside the
   * operator; the copy it returned is the result.
   */
  method ShiftLogger(l: Logger3, msg: string) returns (r: Receiver)
    modifies l.output
    ensures fresh(r) && !r.treated && r.logger == l && !r.muted
    ensures l.output != null ==>
              l.output.text == old(l.output.text) + (if !l.disabled then TextOf(l.prepend) + msg else "")
  {
    var first := new Receiver(l, false);
    r := first.Treat(msg, true);
    var _ := first.Destroy();
  }

  /** `operator<<( receiver, message )`: the receiver treats the message as a later part. */
  method ShiftValue(rc: Receiver, msg: string) returns (r: Receiver)
    modifies rc`treated, rc.logger.output
    ensures rc.treated && fresh(r) && !r.treated && r.logger == rc.logger && r.muted == rc.muted
    ensures rc.logger.output != null ==>
              rc.logger.output.text == old(rc.logger.output.text) + (if !rc.muted && !rc.logger.disabled then msg else "")
  {
    r := rc.Treat(msg, false);
  }

  /**
   * `operator<<( receiver, std::endl )`: the receiver signals and a copy is
   * returned; the operand stays untreated.
   */
  method ShiftEndLine(rc: Receiver) returns (r: Receiver)
    modifies rc.logger.output
    ensures fresh(r) && !r.treated && r.logger == rc.logger && r.muted == rc.muted
    ensures rc.logger.output != null ==>
              rc.logger.output.text == old(rc.logger.output.text) + (if !rc.muted && !rc.logger.disabled then "\n" else "")
  {
    rc.Signal();
    r := new Receiver.Copy(rc);
  }

  /** One shift on a receiver, dispatched on the right operand. */
  method Shift(rc: Receiver, t: Token) returns (r: Receiver)
    modifies rc`treated, rc.logger.output
    ensures rc.treated == (old(rc.treated) || t.Str?)
    ensures fresh(r) && !r.treated && r.logger == rc.logger && r.muted == rc.muted
    ensures rc.logger.output != null ==>
              rc.logger.output.text == old(rc.logger.output.text) + (if !rc.muted && !rc.logger.disabled then Piece(t) else "")
  {
    match t {
      case Str(m) => r := ShiftValue(rc, m);
      case EndLine => r := ShiftEndLine(rc);
    }
  }

  /**
   * The shift of `toks[i]` in a chain whose receivers so far are `recvs`,
   * the last of which, `cur`, is the left operand.
   */
  method ChainLink3(l: Logger3, cur: Receiver, m0: string, toks: seq<Token>, i: nat,
                    recvs: seq<Receiver>, ghost text0: string) returns (next: Receiver)
    requires i < |toks| && |recvs| == i + 1 && cur == recvs[i]
    requires forall j :: 0 <= j <= i ==> recvs[j].logger == l && !recvs[j].muted
    requires forall j, k :: 0 <= j < k <= i ==> recvs[j] != recvs[k]
    requires forall j :: 0 <= j < i ==> recvs[j].treated == toks[j].Str?
    requires !cur.treated
    requires l.output != null ==>
               l.output.text == text0 + (if !l.disabled then TextOf(l.prepend) + m0 + Body(toks[..i]) else "")
    modifies cur`treated, l.output
    ensures fresh(next)
    ensures forall j :: 0 <= j <= i + 1 ==> (recvs + [next])[j].logger == l && !(recvs + [next])[j].muted
    ensures forall j, k :: 0 <= j < k <= i + 1 ==> (recvs + [next])[j] != (recvs + [next])[k]
    ensures forall j :: 0 <= j < i + 1 ==> (recvs + [next])[j].treated == toks[j].Str?
    ensures !next.treated
    ensures l.output != null ==>
              l.output.text == text0 + (if !l.disabled then TextOf(l.prepend) + m0 + Body(toks[..i + 1]) else "")
  {
    BodyStep(toks, i);
    ghost var lead := TextOf(l.prepend) + m0;
    assert lead + Body(toks[..i]) + Piece(toks[i]) == lead + Body(toks[..i + 1]);
    next := Shift(cur, toks[i]);
  }

  /**
   * The shifts of `l << m0 << toks[0] << ... << toks[n-1]`, left to right:
   * `recvs[j]` is the receiver returned by the shift before `toks[j]`, and
   * the last one the statement's result. A receiver is treated exactly when
   * the token after it is a value.
   */
  method ShiftChain3(l: Logger3, m0: string, toks: seq<Token>) returns (recvs: seq<Receiver>)
    modifies l.output
    ensures |recvs| == |toks| + 1
    ensures forall j :: 0 <= j < |recvs| ==> recvs[j].logger == l
    ensures forall j, k :: 0 <= j < k < |recvs| ==> recvs[j] != recvs[k]
    ensures forall j :: 0 <= j < |recvs| ==> recvs[j].treated == (j < |toks| && toks[j].Str?)
    ensures l.output != null ==>
              l.output.text == old(l.output.text) + (if !l.disabled then TextOf(l.prepend) + m0 + Body(toks) else "")
  {
    ghost var text0 := if l.output != null then l.output.text else "";
    var cur := ShiftLogger(l, m0);
    recvs := [cur];
    var i := 0;
    while i < |toks|
      invariant 0 <= i <= |toks| && |recvs| == i + 1 && cur == recvs[i] && fresh(cur)
      invariant forall j :: 0 <= j <= i ==> recvs[j].logger == l && !recvs[j].muted
      invariant forall j, k :: 0 <= j < k <= i ==> recvs[j] != recvs[k]
      invariant forall j :: 0 <= j < i ==> recvs[j].treated == toks[j].Str?
      invariant !cur.treated
      invariant l.output != null ==>
                  l.output.text == text0 + (if !l.disabled then TextOf(l.prepend) + m0 + Body(toks[..i]) else "")
    {
      var next := ChainLink3(l, cur, m0, toks, i, recvs, text0);
      recvs := recvs + [next];
      cur := next;
      i := i + 1;
    }
    assert toks[..i] == toks;
  }

  /**
   * The end of the full expression: the receivers are destroyed from right
   * to left, and each untreated one runs `signal_end`.
   */
  method DestroyChain3(l: Logger3, toks: seq<Token>, recvs: seq<Receiver>) returns (defined: bool, ghost ends: nat)
    requires |recvs| == |toks| + 1
    requires forall j :: 0 <= j < |recvs| ==> recvs[j].logger == l
    requires forall j :: 0 <= j < |recvs| ==> recvs[j].treated == (j < |toks| && toks[j].Str?)
    modifies l.output
    ensures ends == Ends(toks, 0)
    ensures defined == StatementDefined(l.disabled, l.output != null, l.prepend)
    ensures l.output != null ==>
              l.output.text == old(l.output.text)
                               + (if !l.disabled && l.prepend.Some? then Repeat(l.prepend.value, Ends(toks, 0)) else "")
  {
    ghost var text0 := if l.output != null then l.output.text else "";
    defined := true;
    ends := 0;
    var k := |recvs|;
    while k > 0
      invariant 0 <= k <= |recvs|
      invariant ends == Ends(toks, k)
      invariant defined == (ends == 0 || StatementDefined(l.disabled, l.output != null, l.prepend))
      invariant l.output != null ==>
                  l.output.text == text0 + (if !l.disabled && l.prepend.Some? then Repeat(l.prepend.value, ends) else "")
    {
      k := k - 1;
      var d := recvs[k].Destroy();
      if !recvs[k].treated {
        if l.output != null && !l.disabled && l.prepend.Some? {
          assert text0 + Repeat(l.prepend.value, ends) + l.prepend.value
              == text0 + Repeat(l.prepend.value, ends + 1);
        }
        ends := ends + 1;
      }
      defined := defined && d;
    }
    SignalEndCount(toks);
  }

  /** One statement `l << m0 << toks[0] << ... << toks[n-1];`. */
  method Statement3(l: Logger3, m0: string, toks: seq<Token>) returns (defined: bool, ghost ends: nat)
    modifies l.output
    ensures ends == 1 + EndLines(toks)
    ensures defined == StatementDefined(l.disabled, l.output != null, l.prepend)
    ensures l.output != null ==> l.output.text == old(l.output.text) + StatementText3(l.disabled, l.prepend, m0, toks)
  {
    var recvs := ShiftChain3(l, m0, toks);
    defined, ends := DestroyChain3(l, toks, recvs);
    SignalEndCount(toks);
  }

  /**
   * `l(cond) << m0 << toks...;`: the statement on the copy `operator()`
   * returned, which is destroyed after the receivers pointing at it.
   */
  method ConditionalStatement3(l: Logger3, cond: bool, m0: string, toks: seq<Token>) returns (defined: bool)
    modifies l.output
    ensures defined == StatementDefined(!cond, l.output != null, l.prepend)
    ensures l.output != null ==> l.output.text == old(l.output.text) + StatementText3(!cond, l.prepend, m0, toks)
  {
    var copy := l.Call(cond);
    ghost var ends;
    defined, ends := Statement3(copy, m0, toks);
  }

  // ---------------------------------------------------------------------
  // Properties of the statement text.

  /** Without a prepend text a statement writes its tokens and nothing else, `std::endl` as '\n'. */
  lemma NoPrependPlain(m0: string, toks: seq<Token>)
    ensures StatementText3(false, None, m0, toks) == Rendered([Str(m0)] + toks, "")
  {
    RenderedFirstValue(m0, toks, "");
  }

  /**
   * With a prepend text `p` the statement opens with `p` before the first
   * value and ends with `p` written once per untreated receiver, 1 + the
   * number of `std::endl`.
   */
  lemma PrependAtBothEnds(p: string, m0: string, toks: seq<Token>)
    ensures StatementText3(false, Some(p), m0, toks)
         == Rendered([Str(m0)] + toks, p) + Repeat(p, 1 + EndLines(toks))
  {
    SignalEndCount(toks);
    RenderedFirstValue(m0, toks, p);
  }

  /** A disabled logger, e.g. `l(false)`, writes nothing. */
  lemma DisabledSilent(prepend: Option<string>, m0: string, toks: seq<Token>)
    ensures StatementText3(true, prepend, m0, toks) == ""
  {
  }

  /**
   * The shifts render the chain as qdiilog 2.2.1 renders a statement whose
   * first token is a value: the prefix, then every token in order.
   */
  lemma {:induction false} RenderedFirstValue(m0: string, toks: seq<Token>, p: string)
    ensures Rendered([Str(m0)] + toks, p) == p + m0 + Body(toks)
    decreases |toks|
  {
    var all := [Str(m0)] + toks;
    if toks == [] {
      assert all == [Str(m0)];
      assert all[..0] == [];
    } else {
      var init := toks[..|toks| - 1];
      var last := toks[|toks| - 1];
      assert all[..|all| - 1] == [Str(m0)] + init;
      assert all[|all| - 1] == last;
      assert HasValue([Str(m0)] + init) by { assert ([Str(m0)] + init)[0].Str?; }
      assert Rendered(all, p) == Rendered([Str(m0)] + init, p) + Piece(last);
      RenderedFirstValue(m0, init, p);
      assert Body(toks) == Body(init) + Piece(last);
    }
  }

  /** `logger << "a b c";` writes "a b c". */
  lemma OneStringExample()
    ensures StatementText3(false, None, "a b c", []) == "a b c"
  {
  }

  /** `logger << "a b c " << "1 2 3";` writes "a b c 1 2 3". */
  lemma TwoStringsExample()
    ensures StatementText3(false, None, "a b c ", [Str("1 2 3")]) == "a b c 1 2 3"
  {
    assert [Str("1 2 3")][..0] == [];
  }

  /** `logger << "a b c" << std::endl << "1 2 3";` writes "a b c\n1 2 3". */
  lemma StdEndlExample()
    ensures StatementText3(false, None, "a b c", [EndLine, Str("1 2 3")]) == "a b c\n1 2 3"
  {
    var toks := [EndLine, Str("1 2 3")];
    assert toks[..1] == [EndLine];
    assert [EndLine][..0] == [];
  }
}
