/**
 * qdiilog 2.2.1: the `Logger<Level>` objects, the per-level registry of
 * live instances, the process-wide threshold, and the shift operators that
 * turn one statement `log << t1 << ... << tn;` into a chain of temporary
 * loggers created left to right and destroyed right to left.
 *
 * The process-wide statics of the header (`UserFilter<int>::level` and the
 * five `Logger<Level>::m_allLoggers` vectors) are the fields of one
 * `LogSystem` object. The five vectors are `registries[Debug]` ...
 * `registries[Error]`; `registries[Disable]` is the vector of
 * `Logger<Loglevel::disable>`. A vector pointer is null exactly when its
 * sequence is empty: `registerMe` allocates it on the first push and
 * `unregisterMe` frees it when it becomes empty.
 */
module Qdiilog {
  import opened Options
  import opened Loglevels
  import opened Sinks
  import opened Emission
  import opened BashColors

  // ---------------------------------------------------------------------
  // The registry bookkeeping of `unregisterMe`:
  // `m_allLoggers->erase(std::find(begin, end, &_logger), end)`.

  /** `std::find`: the first position holding `x`. */
  function IndexOf<T(==)>(s: seq<T>, x: T): (i: nat)
    requires x in s
    ensures i < |s| && s[i] == x && x !in s[..i]
  {
    if s[0] == x then 0 else 1 + IndexOf(s[1..], x)
  }

  /** Erasing from the first occurrence of `x` to the end; nothing when `x` is absent. */
  function EraseFrom<T(==)>(s: seq<T>, x: T): seq<T>
  {
    if x in s then s[..IndexOf(s, x)] else s
  }

  /**
   * `unregisterMe` keeps exactly the entries before the instance: the
   * instance and every entry registered after it are gone, and a vector
   * without the instance is left as it is.
   */
  lemma EraseFromKeepsPrefix<T>(s: seq<T>, x: T)
    ensures x !in EraseFrom(s, x)
    ensures EraseFrom(s, x) <= s
    ensures x !in s ==> EraseFrom(s, x) == s
    ensures x in s ==> |EraseFrom(s, x)| == IndexOf(s, x)
  {
  }

  /** Destroying the most recently registered instance removes exactly that instance. */
  lemma EraseFromLast<T>(s: seq<T>, x: T)
    requires x !in s
    ensures EraseFrom(s + [x], x) == s
  {
    var i := IndexOf(s + [x], x);
    assert (s + [x])[|s|] == x;
    assert i == |s|;
    assert (s + [x])[..|s|] == s;
  }

  /**
   * Destroying an instance out of order unregisters every instance that
   * was registered after it as well, even though those are still alive.
   */
  lemma EraseFromDropsLater<T>(s: seq<T>, i: nat, j: nat)
    requires i < j < |s|
    requires forall a, b :: 0 <= a < b < |s| ==> s[a] != s[b]
    ensures s[j] in s && s[j] !in EraseFrom(s, s[i])
  {
    var k := IndexOf(s, s[i]);
    assert k == i;
    assert forall a :: 0 <= a < k ==> s[..k][a] == s[a];
  }

  // ---------------------------------------------------------------------

  /** One `Logger<level>` object. */
  class Logger {
    const level: Loglevel
    var decorated: bool
    var muted: bool
    var shouldPostpend: bool
    var decoration: Option<Decoration>
    /** The stream buffer the logger writes through; null until an output is set. */
    var output: Sink?

    function ViewOf(): View
      reads this
    {
      View(decorated, muted, shouldPostpend, decoration)
    }

    /** The member initialisation of `Logger(_muted, _decorated, _shouldAppend)`. */
    constructor (level: Loglevel, muted: bool, decorated: bool, shouldAppend: bool)
      ensures this.level == level
      ensures ViewOf() == View(decorated, muted, shouldAppend, None)
      ensures output == null
    {
      this.level := level;
      this.decorated := decorated;
      this.muted := muted;
      this.shouldPostpend := shouldAppend;
      this.decoration := None;
      this.output := null;
    }

    /** The member initialisation of the copy constructor: `m_shouldPostpend` is set. */
    constructor Copy(src: Logger)
      ensures level == src.level
      ensures ViewOf() == Emission.Copy(src.ViewOf())
      ensures output == src.output
    {
      level := src.level;
      decorated := src.decorated;
      muted := src.muted;
      shouldPostpend := true;
      decoration := src.decoration;
      output := src.output;
    }

    /** `prepend`: replaces the prepend text, creating the decoration if there is none. */
    method Prepend(text: string)
      modifies this`decoration
      ensures decoration == Some(Decoration(text, Suffix(old(decoration))))
    {
      if decoration.None? {
        decoration := Some(Decoration("", ""));
      }
      decoration := Some(decoration.value.(prependText := text));
    }

    /** `append`: replaces the postpend text, creating the decoration if there is none. */
    method Append(text: string)
      modifies this`decoration
      ensures decoration == Some(Decoration(PrependText(old(decoration)), text))
    {
      if decoration.None? {
        decoration := Some(Decoration("", ""));
      }
      decoration := Some(decoration.value.(postpendText := text));
    }

    method DontPostpend()
      modifies this`shouldPostpend
      ensures !shouldPostpend
    {
      shouldPostpend := false;
    }

    /** `setOutput`: the logger now writes through the given stream's buffer (which may be null). */
    method SetOutput(out: Sink?)
      modifies this`output
      ensures output == out
    {
      output := out;
    }

    /**
     * `operator=`: flags, a deep copy of the decoration and the output are
     * taken from `src`; the postpend flag is kept; self-assignment changes
     * nothing.
     */
    method Assign(src: Logger)
      modifies this`decorated, this`muted, this`decoration, this`output
      ensures decorated == old(src.decorated) && muted == old(src.muted)
      ensures decoration == old(src.decoration) && output == old(src.output)
      ensures shouldPostpend == old(shouldPostpend)
    {
      if this == src {
        return;
      }
      decorated := src.decorated;
      muted := src.muted;
      decoration := src.decoration;
      output := src.output;
    }

    /** `static_cast<std::ostream &>(*this) << s`: a stream without buffer drops the text. */
    method Emit(s: string)
      modifies output
      ensures output != null ==> output.text == old(output.text) + s
    {
      if output != null {
        output.Write(s);
      }
    }
  }

  /** The prepend texts `setPrependTextQdiiFlavour` installs. */
  function QdiiFlavourPrefix(level: Loglevel): string
  {
    match level
    case Info => "[..] "
    case Warning => "[ww] "
    case Error => "[EE] "
    case _ => ""
  }

  /** The prepend texts `setPrependedTextQdiiFlavourBashColors` installs. */
  function QdiiColorFlavourPrefix(level: Loglevel): string
  {
    match level
    case Info => SetBashColor(NoColor, NoColor, false) + "[..] "
    case Warning => "[" + SetBashColor(Green, NoColor, false) + "ww" + SetBashColor(NoColor, NoColor, false) + "] "
    case Error => "[" + SetBashColor(Red, NoColor, false) + "EE" + SetBashColor(NoColor, NoColor, false) + "]"
                  + SetBashColor(NoColor, NoColor, true) + " "
    case _ => SetBashColor(NoColor, NoColor, false)
  }

  /** A static logger after a flavour installed `prefix` and `suffix`: decorated, not muted, not postpending. */
  function FlavouredStatic(prefix: string, suffix: string): View
  {
    View(true, false, false, Some(Decoration(prefix, suffix)))
  }

  /**
   * Under `setPrependTextQdiiFlavour`, a statement of values on a static
   * logger writes the level's marker and the values when the level passes,
   * and nothing otherwise.
   */
  lemma QdiiFlavourStatement(lv: Loglevel, ok: bool, toks: seq<Token>)
    requires toks != [] && forall i :: 0 <= i < |toks| ==> toks[i].Str?
    ensures StatementText(FlavouredStatic(QdiiFlavourPrefix(lv), ""), ok, toks)
         == if ok then QdiiFlavourPrefix(lv) + Concat(toks) else ""
  {
    StatementDecoration(FlavouredStatic(QdiiFlavourPrefix(lv), ""), ok, toks);
    RenderedValues(toks, QdiiFlavourPrefix(lv));
  }

  /** `log_error << "x";` under `setPrependTextQdiiFlavour` writes "[EE] x". */
  lemma QdiiFlavourErrorExample()
    ensures StatementText(FlavouredStatic(QdiiFlavourPrefix(Error), ""), true, [Str("x")]) == "[EE] x"
  {
    QdiiFlavourStatement(Error, true, [Str("x")]);
    assert [Str("x")][..0] == [];
  }

  /**
   * Under `setPrependedTextQdiiFlavourBashColors`, a statement the threshold
   * filters out still writes the reset sequence, because the destructor
   * writes the suffix without consulting the level.
   */
  lemma ColorFlavourFilteredWritesReset(lv: Loglevel, toks: seq<Token>)
    requires toks != []
    ensures StatementText(FlavouredStatic(QdiiColorFlavourPrefix(lv), SetBashColor(NoColor, NoColor, false)), false, toks)
         == [Esc, '[', '0', 'm']
  {
    FilteredStatementWritesSuffix(FlavouredStatic(QdiiColorFlavourPrefix(lv), SetBashColor(NoColor, NoColor, false)), toks);
    SetBashColorNoColors(false);
  }

  /** An admitted statement of values under the colour flavour ends with the reset sequence. */
  lemma ColorFlavourStatement(lv: Loglevel, toks: seq<Token>)
    requires toks != [] && forall i :: 0 <= i < |toks| ==> toks[i].Str?
    ensures StatementText(FlavouredStatic(QdiiColorFlavourPrefix(lv), SetBashColor(NoColor, NoColor, false)), true, toks)
         == QdiiColorFlavourPrefix(lv) + Concat(toks) + [Esc, '[', '0', 'm']
  {
    PrefixOnceSuffixOnce(FlavouredStatic(QdiiColorFlavourPrefix(lv), SetBashColor(NoColor, NoColor, false)), toks);
    SetBashColorNoColors(false);
  }

  /** The five levels a global setter walks through (`disable` is not among them). */
  predicate Live(level: Loglevel)
  {
    level != Disable
  }

  /** A level's vector holds distinct instances of that level. */
  ghost predicate WellFormed(level: Loglevel, s: seq<Logger>)
  {
    && (forall i :: 0 <= i < |s| ==> s[i].level == level)
    && (forall i, j :: 0 <= i < j < |s| ==> s[i] != s[j])
  }

  lemma WellFormedPush(level: Loglevel, s: seq<Logger>, l: Logger)
    requires WellFormed(level, s) && l.level == level && l !in s
    ensures WellFormed(level, s + [l])
  {
  }

  /** The instances registered after `a` are distinct and none of them is in `a`. */
  lemma WellFormedSplit(level: Loglevel, a: seq<Logger>, b: seq<Logger>)
    requires WellFormed(level, a + b)
    ensures forall j :: 0 <= j < |b| ==> b[j] !in a && b[j].level == level
    ensures forall j, k :: 0 <= j < k < |b| ==> b[j] != b[k]
  {
    forall j, m | 0 <= j < |b| && 0 <= m < |a|
      ensures a[m] != b[j]
    {
      assert (a + b)[m] == a[m] && (a + b)[|a| + j] == b[j];
    }
    forall j, k | 0 <= j < k < |b|
      ensures b[j] != b[k]
    {
      assert (a + b)[|a| + j] == b[j] && (a + b)[|a| + k] == b[k];
    }
    assert forall j :: 0 <= j < |b| ==> (a + b)[|a| + j] == b[j];
  }

  lemma WellFormedPrefix(level: Loglevel, s: seq<Logger>, n: nat)
    requires WellFormed(level, s) && n <= |s|
    ensures WellFormed(level, s[..n])
  {
  }

  /** The process-wide state of the header. */
  class LogSystem {
    /** `UserFilter<int>::level`. */
    var threshold: Loglevel
    /** `Logger<Level>::m_allLoggers` for each level. */
    var registries: map<Loglevel, seq<Logger>>

    ghost predicate Valid()
      reads this
    {
      forall lv: Loglevel :: lv in registries && WellFormed(lv, registries[lv])
    }

    /**
     * Program start: the threshold is zero-initialised, i.e. `Loglevel::debug`,
     * and no vector is allocated.
     */
    constructor ()
      ensures Valid()
      ensures threshold == Debug
      ensures forall lv: Loglevel :: lv in registries && registries[lv] == []
    {
      threshold := Debug;
      registries := map[Debug := [], Trace := [], Info := [], Warning := [], Error := [], Disable := []];
      new;
      forall lv: Loglevel
        ensures lv in registries && registries[lv] == []
      {
        match lv
        case Debug =>
        case Trace =>
        case Info =>
        case Warning =>
        case Error =>
        case Disable =>
      }
    }

    /** `setLogLevel`: replaces the threshold and nothing else. */
    method SetLogLevel(level: Loglevel)
      modifies this`threshold
      ensures threshold == level
    {
      threshold := level;
    }

    /** `isGranularityOk()` of a logger under the current threshold. */
    function IsGranularityOk(l: Logger): bool
      reads this`threshold
    {
      GranularityOk(l.level, threshold)
    }

    /** `registerMe`: appends the instance to its level's vector. */
    method Register(l: Logger)
      requires Valid() && l !in registries[l.level]
      modifies this`registries
      ensures Valid()
      ensures registries == old(registries)[l.level := old(registries[l.level]) + [l]]
    {
      registries := registries[l.level := registries[l.level] + [l]];
    }

    /**
     * `unregisterMe`: erases from the instance to the end of its vector.
     * `defined` is false when the vector had already been freed (it was
     * empty), where the source dereferences a null pointer; the model then
     * changes nothing.
     */
    method Unregister(l: Logger) returns (defined: bool)
      requires Valid()
      modifies this`registries
      ensures Valid()
      ensures defined == (|old(registries[l.level])| > 0)
      ensures registries == if defined then old(registries)[l.level := EraseFrom(old(registries[l.level]), l)]
                            else old(registries)
    {
      var reg := registries[l.level];
      defined := |reg| > 0;
      if defined {
        EraseFromKeepsPrefix(reg, l);
        var kept := EraseFrom(reg, l);
        assert forall i :: 0 <= i < |kept| ==> kept[i] == reg[i];
        registries := registries[l.level := kept];
      }
    }

    /** `Logger(_muted, _decorated, _shouldAppend)`: a new instance, registered. */
    method Construct(level: Loglevel, muted: bool, decorated: bool, shouldAppend: bool) returns (l: Logger)
      requires Valid()
      modifies this`registries
      ensures Valid() && fresh(l)
      ensures l.level == level && l.ViewOf() == View(decorated, muted, shouldAppend, None) && l.output == null
      ensures registries == old(registries)[level := old(registries[level]) + [l]]
    {
      l := new Logger(level, muted, decorated, shouldAppend);
      Register(l);
    }

    /** The copy constructor: a new instance sharing `src`'s output, registered. */
    method CopyConstruct(src: Logger) returns (l: Logger)
      requires Valid()
      modifies this`registries
      ensures Valid() && fresh(l)
      ensures l.level == src.level && l.ViewOf() == Emission.Copy(src.ViewOf()) && l.output == src.output
      ensures registries == old(registries)[src.level := old(registries[src.level]) + [l]]
    {
      l := new Logger.Copy(src);
      Register(l);
    }

    /**
     * `~Logger`: the suffix is written when the postpend flag is set and the
     * suffix is non-empty, without consulting the level gate; then the
     * instance is unregistered.
     */
    method Destroy(l: Logger) returns (defined: bool)
      requires Valid()
      modifies this`registries, l.output
      ensures Valid()
      ensures l.output != null ==> l.output.text == old(l.output.text) + DtorWritten(l.ViewOf())
      ensures defined == (|old(registries[l.level])| > 0)
      ensures registries == if defined then old(registries)[l.level := EraseFrom(old(registries[l.level]), l)]
                            else old(registries)
    {
      if l.shouldPostpend && l.decoration.Some? && |l.decoration.value.postpendText| > 0 {
        l.Emit(l.decoration.value.postpendText);
      }
      defined := Unregister(l);
    }

    /**
     * `treat`: writes prefix (decorated loggers with a decoration only) and
     * message when not muted and the level passes, and returns a new
     * undecorated, postpending logger with the same output that carries the
     * non-empty suffix.
     */
    method Treat(l: Logger, msg: string) returns (r: Logger)
      requires Valid()
      modifies this`registries, l.output
      ensures Valid() && fresh(r)
      ensures r.level == l.level && r.output == l.output
      ensures r.ViewOf() == Treated(l.ViewOf())
      ensures registries == old(registries)[l.level := old(registries[l.level]) + [r]]
      ensures l.output != null ==>
                l.output.text == old(l.output.text) + (if !l.muted && IsGranularityOk(l) then Prefix(l.ViewOf()) + msg else "")
    {
      if !l.muted && IsGranularityOk(l) {
        var full := "";
        if l.decorated && l.decoration.Some? {
          full := full + l.decoration.value.prependText;
        }
        full := full + msg;
        l.Emit(full);
      }
      r := Construct(l.level, l.muted, false, true);
      if l.decoration.Some? && |l.decoration.value.postpendText| > 0 {
        r.Append(l.decoration.value.postpendText);
      }
      r.SetOutput(l.output);
    }

    /**
     * `operator<<( logger, std::endl )`: clears the operand's postpend flag,
     * writes '\n' when not muted and the level passes, and returns a copy.
     */
    method ShiftEndLine(l: Logger) returns (r: Logger)
      requires Valid()
      modifies this`registries, l`shouldPostpend, l.output
      ensures Valid() && fresh(r)
      ensures l.ViewOf() == Closed(old(l.ViewOf()))
      ensures r.level == l.level && r.output == l.output
      ensures r.ViewOf() == Returned(old(l.ViewOf()), EndLine)
      ensures registries == old(registries)[l.level := old(registries[l.level]) + [r]]
      ensures l.output != null ==> l.output.text == old(l.output.text) + Written(old(l.ViewOf()), IsGranularityOk(l), EndLine)
    {
      l.DontPostpend();
      if !l.muted && IsGranularityOk(l) {
        l.Emit("\n");
      }
      r := CopyConstruct(l);
    }

    /**
     * `operator<<( logger, message )`: clears the operand's postpend flag;
     * a muted operand returns a copy of itself, any other hands the message
     * to `treat`.
     */
    method ShiftValue(l: Logger, msg: string) returns (r: Logger)
      requires Valid()
      modifies this`registries, l`shouldPostpend, l.output
      ensures Valid() && fresh(r)
      ensures l.ViewOf() == Closed(old(l.ViewOf()))
      ensures r.level == l.level && r.output == l.output
      ensures r.ViewOf() == Returned(old(l.ViewOf()), Str(msg))
      ensures registries == old(registries)[l.level := old(registries[l.level]) + [r]]
      ensures l.output != null ==> l.output.text == old(l.output.text) + Written(old(l.ViewOf()), IsGranularityOk(l), Str(msg))
    {
      l.DontPostpend();
      if !l.muted {
        r := Treat(l, msg);
      } else {
        r := CopyConstruct(l);
      }
    }

    /** One `<<`, dispatched on the right operand as overload resolution does. */
    method Shift(l: Logger, t: Token) returns (r: Logger)
      requires Valid()
      modifies this`registries, l`shouldPostpend, l.output
      ensures Valid() && fresh(r)
      ensures l.ViewOf() == Closed(old(l.ViewOf()))
      ensures r.level == l.level && r.output == l.output
      ensures r.ViewOf() == Returned(old(l.ViewOf()), t)
      ensures registries == old(registries)[l.level := old(registries[l.level]) + [r]]
      ensures l.output != null ==> l.output.text == old(l.output.text) + Written(old(l.ViewOf()), IsGranularityOk(l), t)
    {
      match t
      case Str(m) => r := ShiftValue(l, m);
      case EndLine => r := ShiftEndLine(l);
    }

    /**
     * `operator()( cond )`: a new muted, decorated logger, assigned from
     * `l` when `cond` holds.
     */
    method Call(l: Logger, cond: bool) returns (r: Logger)
      requires Valid()
      modifies this`registries
      ensures Valid() && fresh(r)
      ensures r.level == l.level && r.ViewOf() == CallView(l.ViewOf(), cond)
      ensures r.output == if cond then l.output else null
      ensures registries == old(registries)[l.level := old(registries[l.level]) + [r]]
    {
      r := Construct(l.level, !cond, true, false);
      if cond {
        r.Assign(l);
      }
    }

    /**
     * The state after the first i shifts of a chain `l << toks[0] << ...`,
     * which returned `temps`; `cur` is the next left operand, the last of
     * them (or `l` itself when i is 0). `m0` and `reg0` are the registry
     * before the chain and `l`'s vector in it, `v0` is `l`'s view and
     * `text0` its stream's text before the chain. Every temporary but the
     * last has been the left operand of a later shift, so its postpend flag
     * is cleared.
     */
    ghost predicate Shifted(l: Logger, cur: Logger, toks: seq<Token>, i: nat, temps: seq<Logger>,
                            m0: map<Loglevel, seq<Logger>>, reg0: seq<Logger>, v0: View, text0: string)
      reads this, l, cur, l.output, set j | 0 <= j < |temps| :: temps[j]
    {
      && Valid() && i <= |toks| && |temps| == i
      && registries == m0[l.level := reg0 + temps]
      && (forall j :: 0 <= j < i ==> temps[j].level == l.level && temps[j].output == l.output)
      && cur == (if i == 0 then l else temps[i - 1])
      && (i > 0 ==> cur != l)
      && cur.ViewOf() == Current(v0, toks[..i])
      && (forall j :: 0 <= j < i - 1 ==> !temps[j].shouldPostpend)
      && l.ViewOf() == (if i == 0 then v0 else Closed(v0))
      && (l.output != null ==> l.output.text == text0 + ShiftText(v0, IsGranularityOk(l), toks[..i]))
    }

    /** The (i+1)-th shift of a chain, from `Shifted` for i to `Shifted` for i+1. */
    method ChainLink(l: Logger, cur: Logger, toks: seq<Token>, i: nat, ghost temps: seq<Logger>,
                     ghost m0: map<Loglevel, seq<Logger>>, ghost reg0: seq<Logger>, ghost v0: View,
                     ghost text0: string) returns (next: Logger)
      requires i < |toks| && Shifted(l, cur, toks, i, temps, m0, reg0, v0, text0)
      modifies this`registries, cur`shouldPostpend, l.output
      ensures fresh(next) && Shifted(l, next, toks, i + 1, temps + [next], m0, reg0, v0, text0)
    {
      ghost var ok := IsGranularityOk(l);
      ShiftStep(v0, ok, toks, i, text0);
      assert registries[l.level] == reg0 + temps && WellFormed(l.level, registries[l.level]);
      WellFormedSplit(l.level, reg0, temps);
      next := Shift(cur, toks[i]);
      assert reg0 + temps + [next] == reg0 + (temps + [next]);
    }

    /**
     * The shifts of one statement `l << toks[0] << ... << toks[n-1]`, left
     * to right: `temps[j]` is the temporary the (j+1)-th shift returns.
     * Every temporary but the last has been the left operand of a later
     * shift, so its postpend flag is cleared.
     */
    method ShiftChain(l: Logger, toks: seq<Token>) returns (temps: seq<Logger>)
      requires Valid()
      modifies this`registries, l`shouldPostpend, l.output
      ensures Valid() && |temps| == |toks|
      ensures registries == old(registries)[l.level := old(registries[l.level]) + temps]
      ensures forall j :: 0 <= j < |temps| ==> temps[j].level == l.level && temps[j].output == l.output
      ensures forall j :: 0 <= j < |temps| - 1 ==> !temps[j].shouldPostpend
      ensures toks != [] ==> temps[|temps| - 1].ViewOf() == Current(old(l.ViewOf()), toks)
      ensures l.ViewOf() == if toks == [] then old(l.ViewOf()) else Closed(old(l.ViewOf()))
      ensures l.output != null ==>
                l.output.text == old(l.output.text) + ShiftText(old(l.ViewOf()), IsGranularityOk(l), toks)
    {
      ghost var v0 := l.ViewOf();
      ghost var m0 := registries;
      ghost var reg0 := registries[l.level];
      ghost var text0 := if l.output != null then l.output.text else "";
      assert m0[l.level := reg0] == m0;
      assert reg0 + [] == reg0;
      temps := [];
      var cur := l;
      var i := 0;
      while i < |toks|
        invariant Shifted(l, cur, toks, i, temps, m0, reg0, v0, text0)
        invariant i > 0 ==> fresh(cur)
        decreases |toks| - i
      {
        cur := ChainLink(l, cur, toks, i, temps, m0, reg0, v0, text0);
        temps := temps + [cur];
        i := i + 1;
      }
      assert toks[..i] == toks;
    }

    /**
     * The end of the full expression: the temporaries `temps`, the last
     * entries of their level's vector, are destroyed from right to left.
     * Only the last one can still write its suffix.
     */
    method DestroyChain(level: Loglevel, ghost base: seq<Logger>, temps: seq<Logger>, out: Sink?)
      requires Valid() && registries[level] == base + temps
      requires forall j :: 0 <= j < |temps| ==> temps[j].level == level && temps[j].output == out
      requires forall j :: 0 <= j < |temps| - 1 ==> !temps[j].shouldPostpend
      modifies this`registries, out
      ensures Valid() && registries == old(registries)[level := base]
      ensures out != null ==>
                out.text == old(out.text) + (if temps == [] then "" else DtorWritten(temps[|temps| - 1].ViewOf()))
    {
      ghost var m0 := registries;
      ghost var text0 := if out != null then out.text else "";
      assert temps[..|temps|] == temps;
      assert m0[level := base + temps] == m0;
      var k := |temps|;
      while k > 0
        invariant 0 <= k <= |temps|
        invariant Valid()
        invariant registries == m0[level := base + temps[..k]]
        invariant out != null ==>
                    out.text == text0 + (if k < |temps| then DtorWritten(temps[|temps| - 1].ViewOf()) else "")
      {
        k := k - 1;
        DestroyLink(level, m0, base, temps, k, out, text0);
      }
      assert base + temps[..0] == base;
    }

    /** The destruction of `temps[k]`, the last entry of its level's vector at that point. */
    method DestroyLink(level: Loglevel, ghost m0: map<Loglevel, seq<Logger>>, ghost base: seq<Logger>,
                       temps: seq<Logger>, k: nat, out: Sink?, ghost text0: string)
      requires Valid() && k < |temps| && registries == m0[level := base + temps[..k + 1]]
      requires temps[k].level == level && temps[k].output == out
      requires k < |temps| - 1 ==> !temps[k].shouldPostpend
      requires out != null ==>
                 out.text == text0 + (if k + 1 < |temps| then DtorWritten(temps[|temps| - 1].ViewOf()) else "")
      modifies this`registries, out
      ensures Valid() && registries == m0[level := base + temps[..k]]
      ensures out != null ==> out.text == text0 + DtorWritten(temps[|temps| - 1].ViewOf())
    {
      assert base + temps[..k + 1] == (base + temps[..k]) + [temps[k]];
      assert WellFormed(level, registries[level]);
      WellFormedSplit(level, base + temps[..k], [temps[k]]);
      assert temps[k] !in base + temps[..k] by {
        assert [temps[k]][0] == temps[k];
      }
      EraseFromLast(base + temps[..k], temps[k]);
      var _ := Destroy(temps[k]);
    }

    /**
     * One statement `l << toks[0] << ... << toks[n-1];`: the output receives
     * exactly `StatementText`, the registry ends as it began, and `l` loses
     * only its postpend flag.
     */
    method Statement(l: Logger, toks: seq<Token>)
      requires Valid()
      modifies this`registries, l`shouldPostpend, l.output
      ensures Valid() && registries == old(registries)
      ensures l.ViewOf() == if toks == [] then old(l.ViewOf()) else Closed(old(l.ViewOf()))
      ensures l.output != null ==>
                l.output.text == old(l.output.text) + StatementText(old(l.ViewOf()), IsGranularityOk(l), toks)
    {
      ghost var reg0 := registries[l.level];
      var temps := ShiftChain(l, toks);
      DestroyChain(l.level, reg0, temps, l.output);
      assert old(registries)[l.level := reg0] == old(registries);
    }

    /**
     * A statement whose left-most operand `t` is itself a temporary, the
     * last entry of its level's vector above `reg0`, that owes no suffix:
     * the shifts, then the temporaries from right to left, `t` last.
     */
    method TemporaryStatement(t: Logger, toks: seq<Token>, ghost reg0: seq<Logger>)
      requires Valid() && registries[t.level] == reg0 + [t] && !t.shouldPostpend
      modifies this`registries, t`shouldPostpend, t.output
      ensures Valid() && registries == old(registries)[t.level := reg0]
      ensures t.output != null ==>
                t.output.text == old(t.output.text) + StatementText(old(t.ViewOf()), IsGranularityOk(t), toks)
    {
      Statement(t, toks);
      assert registries[t.level] == reg0 + [t] && WellFormed(t.level, registries[t.level]);
      WellFormedSplit(t.level, reg0, [t]);
      assert [t][0] == t;
      EraseFromLast(reg0, t);
      var _ := Destroy(t);
    }

    /**
     * `log(cond) << toks[0] << ... << toks[n-1];`: the logger `operator()`
     * returns is the leftmost temporary of the statement and is destroyed
     * last. With a false condition it has no output, so nothing reaches
     * `l`'s stream.
     */
    method ConditionalStatement(l: Logger, cond: bool, toks: seq<Token>)
      requires Valid()
      modifies this`registries, l.output
      ensures Valid() && registries == old(registries)
      ensures l.output != null ==>
                l.output.text == old(l.output.text) + ConditionalText(old(l.ViewOf()), IsGranularityOk(l), cond, toks)
    {
      ghost var reg0 := registries[l.level];
      ghost var text0 := if l.output != null then l.output.text else "";
      ghost var ok := IsGranularityOk(l);
      ghost var v0 := l.ViewOf();
      var head := Call(l, cond);
      TemporaryStatement(head, toks, reg0);
      assert old(registries)[l.level := reg0] == old(registries);
      if !cond {
        ConditionalFalseSilent(v0, ok, toks);
        assert text0 + ConditionalText(v0, ok, cond, toks) == text0;
      }
    }

    /**
     * The five namespace-scope statics of a translation unit, constructed
     * with the default arguments (not muted, decorated, not postpending).
     */
    method Statics() returns (debug: Logger, trace: Logger, info: Logger, warning: Logger, error: Logger)
      requires Valid()
      modifies this`registries
      ensures Valid() && fresh(debug) && fresh(trace) && fresh(info) && fresh(warning) && fresh(error)
      ensures debug.level == Debug && trace.level == Trace && info.level == Info
      ensures warning.level == Warning && error.level == Error
      ensures forall l :: l in [debug, trace, info, warning, error] ==>
                l.ViewOf() == View(true, false, false, None) && l.output == null
      ensures registries == old(registries)[Debug := old(registries[Debug]) + [debug]]
                                           [Trace := old(registries[Trace]) + [trace]]
                                           [Info := old(registries[Info]) + [info]]
                                           [Warning := old(registries[Warning]) + [warning]]
                                           [Error := old(registries[Error]) + [error]]
    {
      debug := Construct(Debug, false, true, false);
      trace := Construct(Trace, false, true, false);
      info := Construct(Info, false, true, false);
      warning := Construct(Warning, false, true, false);
      error := Construct(Error, false, true, false);
    }

    /**
     * `setAllOutputs`: every registered instance of the level now writes to
     * `out`. The loop dereferences the level's vector, so the level must
     * have a live instance.
     */
    method SetAllOutputs(lv: Loglevel, out: Sink?)
      requires Valid() && |registries[lv]| > 0
      modifies registries[lv]`output
      ensures forall j :: 0 <= j < |registries[lv]| ==> registries[lv][j].output == out
    {
      var loggers := registries[lv];
      var i := 0;
      while i < |loggers|
        invariant 0 <= i <= |loggers|
        invariant forall j :: 0 <= j < i ==> loggers[j].output == out
      {
        loggers[i].SetOutput(out);
        i := i + 1;
      }
    }

    /** `prependAll`: `prepend(text)` on every registered instance of the level. */
    method PrependAll(lv: Loglevel, text: string)
      requires Valid() && |registries[lv]| > 0
      modifies registries[lv]`decoration
      ensures forall j :: 0 <= j < |registries[lv]| ==>
                registries[lv][j].decoration == Some(Decoration(text, Suffix(old(registries[lv][j].decoration))))
    {
      var loggers := registries[lv];
      var i := 0;
      while i < |loggers|
        invariant 0 <= i <= |loggers|
        invariant forall j :: 0 <= j < i ==>
                    loggers[j].decoration == Some(Decoration(text, Suffix(old(loggers[j].decoration))))
        invariant forall j :: i <= j < |loggers| ==> loggers[j].decoration == old(loggers[j].decoration)
      {
        loggers[i].Prepend(text);
        i := i + 1;
      }
    }

    /** `appendAll`: `append(text)` on every registered instance of the level. */
    method AppendAll(lv: Loglevel, text: string)
      requires Valid() && |registries[lv]| > 0
      modifies registries[lv]`decoration
      ensures forall j :: 0 <= j < |registries[lv]| ==>
                registries[lv][j].decoration == Some(Decoration(PrependText(old(registries[lv][j].decoration)), text))
    {
      var loggers := registries[lv];
      var i := 0;
      while i < |loggers|
        invariant 0 <= i <= |loggers|
        invariant forall j :: 0 <= j < i ==>
                    loggers[j].decoration == Some(Decoration(PrependText(old(loggers[j].decoration)), text))
        invariant forall j :: i <= j < |loggers| ==> loggers[j].decoration == old(loggers[j].decoration)
      {
        loggers[i].Append(text);
        i := i + 1;
      }
    }

    /** The five levels' vectors are allocated, as they are once the statics exist. */
    ghost predicate LiveAllocated()
      reads this
    {
      Valid() && forall lv: Loglevel :: Live(lv) ==> |registries[lv]| > 0
    }

    /** The global `setOutput`: `setAllOutputs` on the five levels, `disable` left alone. */
    method SetOutput(out: Sink?)
      requires LiveAllocated()
      modifies registries[Debug]`output, registries[Trace]`output, registries[Info]`output
      modifies registries[Warning]`output, registries[Error]`output
      ensures forall lv: Loglevel, j :: Live(lv) && 0 <= j < |registries[lv]| ==> registries[lv][j].output == out
    {
      SetAllOutputs(Debug, out);
      SetAllOutputs(Trace, out);
      SetAllOutputs(Info, out);
      SetAllOutputs(Warning, out);
      SetAllOutputs(Error, out);
    }

    /** `prependAll(prefix(lv))` on the five levels in turn. */
    method PrependEach(prefix: Loglevel -> string)
      requires LiveAllocated()
      modifies registries[Debug]`decoration, registries[Trace]`decoration, registries[Info]`decoration
      modifies registries[Warning]`decoration, registries[Error]`decoration
      ensures forall lv: Loglevel, j :: Live(lv) && 0 <= j < |registries[lv]| ==>
                registries[lv][j].decoration == Some(Decoration(prefix(lv), Suffix(old(registries[lv][j].decoration))))
    {
      PrependAll(Debug, prefix(Debug));
      PrependAll(Trace, prefix(Trace));
      PrependAll(Info, prefix(Info));
      PrependAll(Warning, prefix(Warning));
      PrependAll(Error, prefix(Error));
    }

    /** `appendAll(suffix)` on the five levels in turn. */
    method AppendEach(suffix: string)
      requires LiveAllocated()
      modifies registries[Debug]`decoration, registries[Trace]`decoration, registries[Info]`decoration
      modifies registries[Warning]`decoration, registries[Error]`decoration
      ensures forall lv: Loglevel, j :: Live(lv) && 0 <= j < |registries[lv]| ==>
                registries[lv][j].decoration == Some(Decoration(PrependText(old(registries[lv][j].decoration)), suffix))
    {
      AppendAll(Debug, suffix);
      AppendAll(Trace, suffix);
      AppendAll(Info, suffix);
      AppendAll(Warning, suffix);
      AppendAll(Error, suffix);
    }

    /**
     * Installs `prefix(lv)` as the prepend text and `suffix` as the
     * postpend text of every live level: the five `prependAll` calls, then
     * the five `appendAll` calls.
     */
    method DecorateAll(prefix: Loglevel -> string, suffix: string)
      requires LiveAllocated()
      modifies registries[Debug]`decoration, registries[Trace]`decoration, registries[Info]`decoration
      modifies registries[Warning]`decoration, registries[Error]`decoration
      ensures forall lv: Loglevel, j :: Live(lv) && 0 <= j < |registries[lv]| ==>
                registries[lv][j].decoration == Some(Decoration(prefix(lv), suffix))
    {
      PrependEach(prefix);
      AppendEach(suffix);
    }

    /** `setPrependTextQdiiFlavour`: "[..] ", "[ww] ", "[EE] " before info, warning, error; no suffix. */
    method SetPrependTextQdiiFlavour()
      requires LiveAllocated()
      modifies registries[Debug]`decoration, registries[Trace]`decoration, registries[Info]`decoration
      modifies registries[Warning]`decoration, registries[Error]`decoration
      ensures forall lv: Loglevel, j :: Live(lv) && 0 <= j < |registries[lv]| ==>
                registries[lv][j].decoration == Some(Decoration(QdiiFlavourPrefix(lv), ""))
    {
      DecorateAll(QdiiFlavourPrefix, "");
    }

    /**
     * `setPrependedTextQdiiFlavourBashColors`: coloured markers before each
     * message and the reset sequence after it.
     */
    method SetPrependedTextQdiiFlavourBashColors()
      requires LiveAllocated()
      modifies registries[Debug]`decoration, registries[Trace]`decoration, registries[Info]`decoration
      modifies registries[Warning]`decoration, registries[Error]`decoration
      ensures forall lv: Loglevel, j :: Live(lv) && 0 <= j < |registries[lv]| ==>
                registries[lv][j].decoration == Some(Decoration(QdiiColorFlavourPrefix(lv), SetBashColor(NoColor, NoColor, false)))
    {
      DecorateAll(QdiiColorFlavourPrefix, SetBashColor(NoColor, NoColor, false));
    }
  }
}
