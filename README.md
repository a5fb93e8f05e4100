# qdiilog: the decorated emission protocol, in Dafny

This project models the core of two revisions of qdiilog, a header-only C++ logger.

**qdiilog 2.2.1 (`qdiilog.hpp`).**
- Five severities and `disable`, a process-wide threshold, and the fall-through level gate `isGranularityOk`.
- `Logger<Level>` objects: the muted, decorated and postpend flags, an optional prepend/postpend decoration, and an output stream buffer.
- The per-level registry of live instances, and the setters that broadcast to it.
- The two `operator<<` overloads.
  - A statement `log << t1 << ... << tn;` is a chain of temporary loggers.
  - The temporaries are created left to right and destroyed right to left.
  - Only the right-most temporary still writes the suffix, from its destructor.
- `setBashColor`, which builds ECMA-48 "select graphic rendition" sequences (section 8.3.117 of ECMA-48).
- The two flavour presets that install prefixes and suffixes on the five static loggers.

**qdiilog3 (`qdiilog3.hpp`).**
- A `logger` with a disabled flag, an output and `const char *` prepend and append texts.
- The `receiver` temporaries that a statement creates.
  - A receiver is marked treated when it is the left operand of a value shift.
  - An untreated receiver calls `signal_end` on destruction.

Layout:

| file | module | contents |
|---|---|---|
| `options.dfy` | `Options` | `Option` |
| `levels.dfy` | `Loglevels` | `Loglevel`, the switch of `isGranularityOk` and its closed form |
| `sinks.dfy` | `Sinks` | `Sink`: the character buffer behind an `std::ostream` |
| `emission.dfy` | `Emission` | values: a logger's flags and decoration (`View`), tokens, what one shift and one destructor write, the text of a statement, and its description as prefix, tokens, suffix |
| `qdiilog.dfy` | `Qdiilog` | `Logger` (the object), `LogSystem` (threshold and registries), the shift operators and the chain of temporaries, broadcasts and flavours |
| `bash_color.dfy` | `BashColors` | `setBashColor`, a reader of its output, and round trips |
| `qlog3.dfy` | `Qlog3` | `Logger3`, `Receiver`, the three `operator<<` overloads, the chain of receivers, the statement text |

How the model represents the C++ program:
- The statics `UserFilter<int>::level` and the five `Logger<Level>::m_allLoggers` vectors are the fields of one `LogSystem` object.
  - A vector pointer is null exactly when its sequence is empty.
  - All shift, constructor and destructor methods of 2.2.1 live on `LogSystem`, because each of them registers or unregisters an instance.
- A value shifted into a logger is a `Str` token holding the text `ostringstream` produced for it. `std::endl` is the `EndLine` token.
- Where the source has undefined behaviour, the model marks it with a `defined` result. This applies to:
  - an `unregisterMe` on a vector that was already freed;
  - a `signal_end` through a null output.

Facts of the code that the model follows:
- **Initial threshold.** The threshold starts at `debug`. `UserFilter<int>::level` is zero-initialised (qdiilog.hpp:263), and `debug` is the first enumerator.
- **Default output.** The header comment says the loggers write to `std::cout` by default (qdiilog.hpp:27). The code does not: a default-constructed logger has no stream buffer (`std::basic_ostream<char>( nullptr )`, qdiilog.hpp:490), so it writes nothing until an output is set. The model follows the code.
- **Leading `std::endl`.** `log << std::endl` as the first token writes no prefix. The prefix is written by `treat`, and the endl overload never calls it (qdiilog.hpp:657-667). The prefix therefore goes before the first value.
- **Suffix of a filtered statement.** The suffix is not gated by the level: a statement the threshold filters out still writes its logger's non-empty suffix (qdiilog.hpp:640-643).
- **`signal_end` count (qdiilog3).** `signal_end` runs once for the right-most receiver and once more per `std::endl`, because the receiver left of an `std::endl` is never treated. It runs exactly once only in a chain without `std::endl`.
- **`signal_end` text (qdiilog3).** It writes the prepend text, and nothing reads the append text.

## Model

| member | source | states |
|---|---|---|
| Loglevels.Rank | qdiilog.hpp:215-224 | the enumeration order debug < trace < info < warning < error < disable, with `disable` the only level at position 5 |
| Loglevels.GranularityOkIff | qdiilog.hpp:748-777 | the fall-through switch admits a statement exactly when the threshold is not `disable`, the level is not `disable`, and the threshold is at most the level, both directions |
| Loglevels.GranularityMonotoneInThreshold | qdiilog.hpp:748-777 | lowering the threshold (to anything but `disable`) never silences a level that was admitted |
| Loglevels.GranularityMonotoneInLevel | qdiilog.hpp:748-777 | a more severe logger passes whenever a less severe one does |
| Loglevels.DisableSilencesAll | qdiilog.hpp:771-773 | with threshold `disable` no level passes, error included |
| Loglevels.WarningThreshold | qdiilog.hpp:755-769 | threshold `warning` admits exactly `warning` and `error` |
| Qdiilog.LogSystem.SetLogLevel | qdiilog.hpp:267-271 | `setLogLevel` replaces the threshold and changes nothing else |
| Qdiilog.LogSystem.constructor | qdiilog.hpp:263 | program start: the zero-initialised threshold is `debug` and every level's vector is empty (unallocated) |
| Qdiilog.IndexOf | qdiilog.hpp:469-473 | `std::find` returns the first position holding the instance: it is there and not before |
| Qdiilog.EraseFromKeepsPrefix | qdiilog.hpp:466-476 | `erase(find(..), end())` leaves a prefix of the vector that no longer holds the instance, of length the instance's first position; a vector without the instance is unchanged |
| Qdiilog.EraseFromLast | qdiilog.hpp:466-476 | destroying the most recently registered instance removes exactly that instance |
| Qdiilog.EraseFromDropsLater | qdiilog.hpp:466-476 | destroying an instance out of order also unregisters every instance registered after it, though those are still alive |
| Qdiilog.WellFormedPush | qdiilog.hpp:458-464 | pushing a new instance of the level keeps the vector a list of distinct instances of that level |
| Qdiilog.WellFormedSplit | qdiilog.hpp:458-464 | the instances registered after a point are distinct, of the level, and not among the earlier ones |
| Qdiilog.WellFormedPrefix | qdiilog.hpp:466-476 | what `unregisterMe` keeps is still a list of distinct instances of the level |
| Qdiilog.LogSystem.Register | qdiilog.hpp:458-464 | `registerMe` appends the instance to its own level's vector and leaves the other levels alone |
| Qdiilog.LogSystem.Unregister | qdiilog.hpp:466-482 | `unregisterMe` replaces the level's vector by what `erase(find(..), end())` keeps; `defined` is false, and nothing changes, exactly when the vector was already freed |
| Qdiilog.Logger.constructor | qdiilog.hpp:487-497 | the member initialisation: given flags, no decoration, no stream buffer |
| Qdiilog.Logger.Copy | qdiilog.hpp:501-512 | the copy takes flags, decoration and output from the source, and its postpend flag is set |
| Qdiilog.LogSystem.Construct | qdiilog.hpp:487-497 | a new instance with the given flags, no decoration and no output, registered last in its level's vector |
| Qdiilog.LogSystem.CopyConstruct | qdiilog.hpp:501-512 | a new instance with the source's flags, decoration and output and the postpend flag set, registered last |
| Qdiilog.Logger.Prepend | qdiilog.hpp:564-572 | `prepend` replaces the prepend text, creating the decoration on first use, and keeps the postpend text |
| Qdiilog.Logger.Append | qdiilog.hpp:576-584 | `append` replaces the postpend text, creating the decoration on first use, and keeps the prepend text |
| Qdiilog.Logger.DontPostpend | qdiilog.hpp:424 | `dontPostpend` clears the postpend flag only |
| Qdiilog.Logger.SetOutput | qdiilog.hpp:739-744 | `setOutput` replaces the stream buffer only |
| Qdiilog.Logger.Assign | qdiilog.hpp:588-633 | `operator=` takes flags, decoration and output from the source and keeps the postpend flag; self-assignment changes nothing |
| Qdiilog.Logger.Emit | qdiilog.hpp:551 | a write through the logger appends to its stream, and a logger without stream buffer writes nothing |
| Qdiilog.LogSystem.Destroy | qdiilog.hpp:637-646 | `~Logger` writes the suffix exactly when the postpend flag is set and the suffix is non-empty, without consulting the level, then unregisters the instance |
| Qdiilog.LogSystem.Treat | qdiilog.hpp:537-560 | `treat` writes the prefix (decorated loggers with a decoration only) and the message when not muted and the level passes; the returned logger is new, undecorated, postpending, shares the output, and carries the suffix only if it is non-empty |
| Qdiilog.LogSystem.ShiftEndLine | qdiilog.hpp:656-667 | the endl overload clears the operand's postpend flag, writes '\n' only when the operand is not muted and the level passes, and returns a postpending copy |
| Qdiilog.LogSystem.ShiftValue | qdiilog.hpp:675-691 | the value overload clears the operand's postpend flag; a muted operand writes nothing and returns a copy, any other goes through `treat` |
| Qdiilog.LogSystem.Shift | qdiilog.hpp:656-691 | one shift, dispatched on the right operand as overload resolution does |
| Qdiilog.LogSystem.Call | qdiilog.hpp:781-792 | `operator()(cond)`: a new registered logger; with `cond` it has the operand's flags, decoration and output, otherwise it is muted, decorated, bare and without output |
| Qdiilog.LogSystem.ChainLink | qdiilog.hpp:656-691 | the next shift of a chain keeps the chain's state: the registry grows by the returned temporary, every earlier temporary has lost its postpend flag, and the stream holds the shifts' text so far |
| Qdiilog.LogSystem.ShiftChain | qdiilog.hpp:656-691 | the shifts of a statement: one new temporary per token, registered in order; all but the last have lost their postpend flag; the stream receives the text of the shifts, left to right |
| Qdiilog.LogSystem.DestroyLink | qdiilog.hpp:637-646 | destroying the right-most live temporary unregisters exactly it, and only the statement's last temporary can write the suffix |
| Qdiilog.LogSystem.DestroyChain | qdiilog.hpp:637-646 | the temporaries, destroyed right to left, leave the registry as it was before the chain, and at most the last one writes its suffix |
| Qdiilog.LogSystem.Statement | qdiilog.hpp:656-691 | one statement writes exactly its statement text, leaves the registry as it was, and clears only the postpend flag of the named logger |
| Qdiilog.LogSystem.TemporaryStatement | qdiilog.hpp:781-792 | a statement on a non-postpending temporary (the result of `operator()`) writes its statement text and unregisters the temporary last |
| Qdiilog.LogSystem.ConditionalStatement | qdiilog.hpp:781-792 | `log(cond) << ...;` writes what a statement on the logger `operator()` returns writes, and leaves the registry as it was |
| Emission.ShiftStep | qdiilog.hpp:656-691 | one more shift appends what it writes to the text so far and advances the right-most temporary by one step |
| Emission.CurrentFacts | qdiilog.hpp:537-560 | the right-most temporary keeps the first logger's muting and suffix, is postpending, and carries the prefix only while no value has been shifted; a muted logger's chain holds plain copies |
| Emission.StatementDecoration | qdiilog.hpp:537-691 | what a statement writes: when the level passes and the logger is not muted, the tokens with the prefix before the first value; in every case, then the suffix once |
| Emission.ShiftTextRendered | qdiilog.hpp:656-691 | the shift operators together write the tokens in order with the prefix before the first value, or nothing when filtered or muted |
| Emission.RenderedValues | qdiilog.hpp:675-691 | with only values, the shifts write the prefix once and then the values |
| Emission.PrefixOnceSuffixOnce | qdiilog.hpp:537-560 | `log << a << b << c;` writes the prefix, a, b, c, then the suffix |
| Emission.FilteredStatementWritesSuffix | qdiilog.hpp:640-643 | a statement the threshold filters out writes nothing but the suffix |
| Emission.EndLineAlone | qdiilog.hpp:656-667 | `log << std::endl;` writes '\n' then the suffix, and no prefix |
| Emission.EndLineThenValue | qdiilog.hpp:501-512 | after a leading `std::endl`, the prefix goes before the first value: '\n', prefix, value, suffix |
| Emission.ConditionalFalseSilent | qdiilog.hpp:781-792 | `log(false) << ...;` writes nothing: no prefix, no message, no suffix |
| Emission.ConditionalTrueSame | qdiilog.hpp:781-792 | `log(true) << ...;` writes what `log << ...;` writes |
| Qdiilog.LogSystem.Statics | qdiilog.hpp:808-821 | the five statics are default-constructed, not muted, decorated and not postpending, with no output, each registered in its level's vector |
| Qdiilog.LogSystem.SetAllOutputs | qdiilog.hpp:696-706 | every instance registered at the level now writes to the new output |
| Qdiilog.LogSystem.PrependAll | qdiilog.hpp:711-721 | every instance registered at the level has the new prepend text and keeps its postpend text |
| Qdiilog.LogSystem.AppendAll | qdiilog.hpp:726-736 | every instance registered at the level has the new postpend text and keeps its prepend text |
| Qdiilog.LogSystem.SetOutput | qdiilog.hpp:796-804 | the global `setOutput` redirects every instance of the five levels; `disable` is left alone |
| Qdiilog.LogSystem.PrependEach | qdiilog.hpp:828-832 | a `prependAll` per level, so every instance of level lv gets the prepend text for lv and keeps its suffix |
| Qdiilog.LogSystem.AppendEach | qdiilog.hpp:834-838 | an `appendAll` per level, so every instance gets the suffix and keeps its prefix |
| Qdiilog.LogSystem.DecorateAll | qdiilog.hpp:825-839 | five `prependAll` calls, then five `appendAll` calls, install exactly the given prefix per level and the given suffix |
| Qdiilog.LogSystem.SetPrependTextQdiiFlavour | qdiilog.hpp:825-839 | every instance gets "[..] ", "[ww] ", "[EE] " before info, warning and error, nothing before debug and trace, and an empty suffix |
| Qdiilog.LogSystem.SetPrependedTextQdiiFlavourBashColors | qdiilog.hpp:885-901 | every instance gets the coloured marker of its level as prefix and the reset sequence as suffix |
| Qdiilog.QdiiFlavourStatement | qdiilog.hpp:825-839 | under the plain flavour, a statement of values on a static logger writes the level's marker and the values when the level passes, and nothing otherwise |
| Qdiilog.QdiiFlavourErrorExample | qdiilog.hpp:832 | `log_error << "x";` under the plain flavour writes "[EE] x" |
| Qdiilog.ColorFlavourFilteredWritesReset | qdiilog.hpp:896-900 | under the colour flavour, a filtered-out statement still writes the reset sequence ESC [ 0 m |
| Qdiilog.ColorFlavourStatement | qdiilog.hpp:885-901 | under the colour flavour, an admitted statement of values writes the marker, the values, then the reset sequence |
| BashColors.Code | qdiilog.hpp:843-849 | the enumerators' values are 0 to 8, with `NONE` the only 0 |
| BashColors.DigitChar | qdiilog.hpp:867 | a decimal digit is a character '0' to '9' |
| BashColors.Decimal | qdiilog.hpp:867 | the decimal rendering of an int is never empty |
| BashColors.CodeOfColor | qdiilog.hpp:843-849 | every value 1 to 8 is the code of a colour that is not `NONE` |
| BashColors.ColorOfCodeOf | qdiilog.hpp:843-849 | the colour with a colour's code is that colour |
| BashColors.ParameterDigits | qdiilog.hpp:865-875 | 29 + foreground prints as "3" and the colour's index 0..7; 39 + background as "4" and the index |
| BashColors.ParameterRoundTrip | qdiilog.hpp:865-875 | a colour parameter reads back as its colour |
| BashColors.ParameterSound | qdiilog.hpp:865-875 | what the parameter reader accepts is the parameter of the colour it returns |
| BashColors.BothColorsRoundTrip | qdiilog.hpp:865-875 | "3f;4b" reads back as both colours |
| BashColors.ColorsRoundTrip | qdiilog.hpp:865-875 | the parameter list of any colour pair other than NONE/NONE reads back as that pair |
| BashColors.BothColorsSound | qdiilog.hpp:865-875 | an accepted "3f;4b" is the parameter list of the two colours it names |
| BashColors.ColorsSound | qdiilog.hpp:865-875 | every accepted parameter list is the one of the colours returned, and names at least one colour |
| BashColors.TailRoundTrip | qdiilog.hpp:861-878 | the colour sequence (empty for NONE/NONE) reads back as its two colours |
| BashColors.TailSound | qdiilog.hpp:861-878 | what the colour-sequence reader accepts is the colour sequence of the colours it returns |
| BashColors.SetBashColorLead | qdiilog.hpp:859 | every result starts with ESC [ 1 m when bold and ESC [ 0 m otherwise |
| BashColors.SetBashColorNoColors | qdiilog.hpp:859-861 | NONE/NONE yields only the leading sequence |
| BashColors.SetBashColorBoth | qdiilog.hpp:861-878 | with both colours the second sequence is ESC [ 3f ; 4b m, with f and b the colours' indices 0..7 |
| BashColors.SetBashColorRoundTrip | qdiilog.hpp:853-881 | reading back a result of `setBashColor` recovers its three arguments |
| BashColors.ParseBashColorSound | qdiilog.hpp:853-881 | the reader accepts only strings `setBashColor` produces, for the arguments it returns |
| BashColors.SetBashColorInjective | qdiilog.hpp:853-881 | distinct arguments give distinct strings |
| Qlog3.LevelConstant | qdiilog3.hpp:17-26 | the constants are Rank + 1 with `disabled` wrapped to 0; 0 means `disabled` and nothing else |
| Qlog3.LevelConstantInjective | qdiilog3.hpp:17-26 | the six constants are distinct |
| Qlog3.BodyStep | qdiilog3.hpp:163-182 | one more token appends its piece to the text of the later tokens |
| Qlog3.EndsSuffix | qdiilog3.hpp:121-131 | the untreated receivers from position k on are the right-most one and one per `std::endl` from token k on |
| Qlog3.SignalEndCount | qdiilog3.hpp:127-131 | in a statement, `signal_end` runs 1 + (number of `std::endl`) times |
| Qlog3.Logger3.constructor | qdiilog3.hpp:38-44 | a default logger has the given disabled flag and no output, prepend or append text |
| Qlog3.Logger3.Copy | qdiilog3.hpp:46-51 | the copy shares disabled flag, output, prepend and append text |
| Qlog3.Logger3.SetOutput | qdiilog3.hpp:67-70 | `setOutput` replaces the output only, with a non-null one |
| Qlog3.Logger3.Append | qdiilog3.hpp:72-75 | `append` replaces the append text only |
| Qlog3.Logger3.Prepend | qdiilog3.hpp:77-80 | `prepend` replaces the prepend text only |
| Qlog3.Logger3.Treat | qdiilog3.hpp:55-65 | `treat` writes nothing when disabled or without output; otherwise the prepend text (first part only), then the message |
| Qlog3.Logger3.SignalEnd | qdiilog3.hpp:82-86 | `signal_end` writes the prepend text when not disabled; `defined` is false exactly when that write goes through a null output |
| Qlog3.Logger3.Signal | qdiilog3.hpp:88-94 | `signal(std::endl)` writes '\n' only when not disabled and there is an output |
| Qlog3.Logger3.Call | qdiilog3.hpp:96-101 | `operator()(cond)` returns a new copy sharing output and texts, disabled exactly when `cond` is false; the logger itself is unchanged |
| Qlog3.Receiver.constructor | qdiilog3.hpp:114-119 | a new receiver on the logger is untreated |
| Qlog3.Receiver.Copy | qdiilog3.hpp:121-125 | a copied receiver has the same logger and muting but is untreated |
| Qlog3.Receiver.Destroy | qdiilog3.hpp:127-131 | `~receiver` runs `signal_end` exactly when the receiver is untreated |
| Qlog3.Receiver.Signal | qdiilog3.hpp:134-140 | the receiver forwards `std::endl` to the logger unless muted |
| Qlog3.Receiver.Treat | qdiilog3.hpp:142-151 | `treat` marks the receiver treated, forwards the message unless muted, and returns an untreated copy |
| Qlog3.ShiftLogger | qdiilog3.hpp:170-174 | a shift on the logger writes the prepend text and the value (first part) and returns an untreated, unmuted receiver on it |
| Qlog3.ShiftValue | qdiilog3.hpp:163-167 | a value shift on a receiver writes the value without prefix (later part), marks the operand treated and returns an untreated copy |
| Qlog3.ShiftEndLine | qdiilog3.hpp:177-182 | an `std::endl` shift on a receiver writes '\n', leaves the operand as it was (untreated) and returns an untreated copy |
| Qlog3.Shift | qdiilog3.hpp:163-182 | one shift on a receiver marks it treated exactly when the token is a value, and writes the token's piece |
| Qlog3.ChainLink3 | qdiilog3.hpp:163-182 | the next shift of a chain keeps the chain's state: receiver j is treated exactly when token j is a value, and the stream holds prefix, first value and the later tokens so far |
| Qlog3.ShiftChain3 | qdiilog3.hpp:163-182 | the shifts of a statement: |toks| + 1 distinct receivers on the logger, receiver j treated exactly when token j is a value, and the stream receives prepend text, first value and the later tokens |
| Qlog3.DestroyChain3 | qdiilog3.hpp:127-131 | destroying the receivers right to left writes the prepend text once per untreated receiver; `defined` as for `signal_end` |
| Qlog3.Statement3 | qdiilog3.hpp:163-182 | one statement writes its statement text, `signal_end` runs 1 + (number of `std::endl`) times, and `defined` is false exactly when the logger is enabled, has a prepend text and no output |
| Qlog3.ConditionalStatement3 | qdiilog3.hpp:96-101 | `l(cond) << ...;` writes the statement text of a logger disabled exactly when `cond` is false |
| Qlog3.NoPrependPlain | unittests3.cpp:7-49 | without a prepend text a statement writes its tokens in order and nothing else, `std::endl` as '\n' |
| Qlog3.PrependAtBothEnds | qdiilog3.hpp:55-86 | with prepend text p a statement writes p before the first value, the tokens, then p once per `signal_end`, 1 + (number of `std::endl`) times |
| Qlog3.DisabledSilent | qdiilog3.hpp:55-65 | a disabled logger writes nothing |
| Qlog3.RenderedFirstValue | qdiilog3.hpp:163-182 | the receivers write what qdiilog 2.2.1's shifts write for a statement whose first token is a value: the prefix once, then every token in order |
| Qlog3.OneStringExample | unittests3.cpp:7-16 | `logger << "a b c";` writes "a b c" |
| Qlog3.TwoStringsExample | unittests3.cpp:18-27 | `logger << "a b c " << "1 2 3";` writes "a b c 1 2 3" |
| Qlog3.StdEndlExample | unittests3.cpp:40-49 | `logger << "a b c" << std::endl << "1 2 3";` writes "a b c\n1 2 3" |
| Sinks.Sink.Write | qdiilog3.hpp:61-63 | writing to a stream appends the text to its buffer |

## Left out

- The `std::ostream` machinery is not modelled:
  - the inheritance from `std::ostream` and the `rdbuf` swap (qdiilog.hpp:743) are reduced to a nullable reference to a character buffer;
  - `ostringstream` formatting of arbitrary values (qdiilog.hpp:685-687) is not modelled: a value arrives already rendered as a string;
  - the flush of `std::endl` is not modelled: it appends '\n' only.
- Object lifetime is modelled only as the explicit sequence of temporaries.
  - Copy elision is assumed for the named return values of `treat` (qdiilog.hpp:554-559) and `operator()` (qdiilog.hpp:784-791).
  - One translation unit's five statics are modelled. Static initialisation order across translation units is not.
- The decoration's heap allocation, its `reserve` calls and the `bad_alloc` path of `operator=` (qdiilog.hpp:599-612) are not modelled. Allocation never fails.
- Concurrency is left out: there is no locking in the source.
- The trivial getters `isMuted`, `isDecorated` and `isDisabled` are read as fields.
- Preprocessor naming, namespace macros and the non-scoped-enum encoding of the levels (qdiilog.hpp:226-234) are left out.
- Terminal rendering of escape sequences is left out. Only the strings are modelled.
- `qlog.hpp` is not part of this model. `unittests.cpp` and `unittests2.cpp` exercise it.
- The `level` template parameter of qdiilog3 is never consulted, so it is left out. The model keeps its numeric constants.
- Qdiilog.LogSystem.SetAllOutputs: requires a non-empty vector. The source dereferences a null vector pointer otherwise; that undefined behaviour is not modelled.
- Qdiilog.LogSystem.PrependAll: requires a non-empty vector, as for setAllOutputs.
- Qdiilog.LogSystem.AppendAll: requires a non-empty vector, as for setAllOutputs.
- Qdiilog.LogSystem.SetOutput: requires all five vectors allocated, as they are once the statics of a translation unit exist.
- Qdiilog.LogSystem.SetPrependTextQdiiFlavour: requires all five vectors allocated.
- Qdiilog.LogSystem.SetPrependedTextQdiiFlavourBashColors: requires all five vectors allocated.
- Qdiilog.LogSystem.Destroy: on a freed vector the source dereferences a null pointer. The model reports `defined == false` and leaves the registry unchanged.
- Qlog3.Logger3.SignalEnd: on a null output the source dereferences a null pointer. The model reports `defined == false` and writes nothing.
- Qlog3.Statement3: the first token is a value, because `logger << std::endl` does not compile (no overload takes a `logger` and a manipulator).
- Qlog3.Receiver.Signal: the receiver's muting is always false on the `operator<<` path (qdiilog3.hpp:173). It is kept as a field but never set.
