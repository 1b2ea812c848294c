/**
 * Building the argument string handed to 7z: `appendArg`, `appendOneOption`,
 * `constructOptions`, `constructInputFiles` and `constructArgs`.
 *
 * The functions named after the source follow its control flow (an
 * accumulator extended entry by entry). Beside them, `OptionTokens` lists the
 * tokens the options segment is made of, declaratively; the lemmas connect
 * the two and, for well-behaved inputs, show the result is those tokens
 * joined by single spaces.
 */
module Assembly {
  import opened Php
  import opened Outcomes
  import opened Spacing
  import opened State

  /** PHP's `escapeshellarg`, left uninterpreted: callers supply it. */
  type Escaper = string -> string

  /**
   * The one thing assumed of `escapeshellarg` where a lemma needs it: its
   * result is wrapped in a pair of quote characters (' on POSIX, " on Windows).
   */
  ghost predicate Quotes(esc: Escaper) {
    forall s: string ::
      && |esc(s)| >= 2
      && (esc(s)[0] == '\'' || esc(s)[0] == '"')
      && esc(s)[|esc(s)| - 1] == esc(s)[0]
  }

  lemma QuotedIsClean(esc: Escaper, s: string)
    requires Quotes(esc)
    ensures Clean(esc(s)) && !Empty(esc(s))
  {
  }

  /* ---------------------------------------------------------------------- */
  /* The source's own steps                                                 */
  /* ---------------------------------------------------------------------- */

  /**
   * `appendArg`: an argument PHP considers empty ("" or "0") is dropped;
   * any other is appended behind one space, unless the accumulator is empty
   * or already ends in a space.
   */
  function AppendArg(acc: string, arg: string): (r: string)
    ensures Empty(arg) ==> r == acc
    ensures !Empty(arg) ==> |r| == |acc| + |arg| + (if acc != "" && !EndsInSpace(acc) then 1 else 0)
    ensures !Empty(arg) ==> r[..|acc|] == acc && r[|r| - |arg|..] == arg
    ensures !Empty(arg) && acc != "" && !EndsInSpace(acc) ==> r[|acc|] == ' '
  {
    if Empty(arg) then acc
    else
      AppendSepShape(acc, arg);
      AppendSep(acc, arg)
  }

  /**
   * `appendOneOption`: the option text is always appended with the separator
   * rule; a present value follows it escaped, with no space in between.
   */
  function AppendOneOption(acc: string, option: string, value: Option<string>, esc: Escaper): (r: string)
    ensures r == AppendSep(acc, option + (if value.Some? then esc(value.value) else ""))
    ensures acc <= r
  {
    AppendSepShape(acc, option + (if value.Some? then esc(value.value) else ""));
    var withOption := AppendSep(acc, option);
    match value
    case None => withOption
    case Some(v) => withOption + esc(v)
  }

  /** What `$str .= $value` appends for an integer-keyed entry: the value itself, unescaped. */
  function PositionalText(v: Value): string {
    match v
    case NoValue => ""
    case One(s) => s
    case Many(_) => "Array"
  }

  /** The inner `foreach` over a list value: one option per element. */
  function AppendValues(acc: string, name: string, values: seq<string>, esc: Escaper): (r: string)
    ensures acc <= r
    decreases |values|
  {
    if values == [] then acc
    else AppendValues(AppendOneOption(acc, name, Some(values[0]), esc), name, values[1..], esc)
  }

  /** One iteration of the outer `foreach` in `constructOptions`. */
  function AppendEntry(acc: string, e: Entry, esc: Escaper): (r: string)
    ensures acc <= r
  {
    match e.key
    case IntKey(_) => AppendOneOption(acc, PositionalText(e.value), None, esc)
    case StrKey(name) =>
      match e.value
      case Many(values) => AppendValues(acc, name, values, esc)
      case One(v) => AppendOneOption(acc, name, Some(v), esc)
      case NoValue => AppendOneOption(acc, name, None, esc)
  }

  function AppendEntries(acc: string, es: seq<Entry>, esc: Escaper): (r: string)
    ensures acc <= r
    decreases |es|
  {
    if es == [] then acc else AppendEntries(AppendEntry(acc, es[0], esc), es[1..], esc)
  }

  /** `getFullPathToSfx`: the stub's path, or `null` when no stub is named. */
  function FullPathToSfx(b: SevenZip): (r: Option<string>)
    ensures r.Some? <==> !Empty(b.sfxName)
    ensures r.Some? ==> r.value == b.pathToBinary + b.sfxName
  {
    if !Empty(b.sfxName) then Some(b.pathToBinary + b.sfxName) else None
  }

  /** `constructOptions`: the sfx switch (unescaped) first, then every entry in order. */
  function ConstructOptions(b: SevenZip, esc: Escaper): (r: string)
    ensures !Empty(b.sfxName) ==> "-sfx" + b.pathToBinary + b.sfxName <= r
    ensures b.options == [] ==> r == (if Empty(b.sfxName) then "" else "-sfx" + b.pathToBinary + b.sfxName)
  {
    var start := if !Empty(b.sfxName) then "-sfx" + FullPathToSfx(b).value else "";
    assert !Empty(b.sfxName) ==> start == "-sfx" + b.pathToBinary + b.sfxName;
    AppendEntries(start, b.options, esc)
  }

  /** Every input file escaped, in order. */
  function EscapeAll(files: seq<string>, esc: Escaper): (r: seq<string>)
    ensures |r| == |files|
    ensures forall i | 0 <= i < |files| :: r[i] == esc(files[i])
    decreases |files|
  {
    if files == [] then [] else [esc(files[0])] + EscapeAll(files[1..], esc)
  }

  /** `constructInputFiles`: the escaped input files joined by single spaces. */
  function ConstructInputFiles(files: seq<string>, esc: Escaper): (r: string)
    ensures files == [] ==> r == ""
    ensures files != [] ==> esc(files[0]) <= r
  {
    var escaped := EscapeAll(files, esc);
    JoinSpaceFirst(escaped);
    JoinSpace(escaped)
  }

  /** `constructArgs`: command, options, output file (unescaped), input files. */
  function ConstructArgs(b: SevenZip, esc: Escaper): (r: string)
    ensures b.command <= r
    ensures Empty(ConstructOptions(b, esc)) && Empty(b.outputFile) && b.inputFiles == [] ==> r == b.command
  {
    var inputs := ConstructInputFiles(b.inputFiles, esc);
    var withOptions := AppendArg(b.command, ConstructOptions(b, esc));
    var withOutput := AppendArg(withOptions, b.outputFile);
    AppendArgExtends(b.command, ConstructOptions(b, esc));
    AppendArgExtends(withOptions, b.outputFile);
    AppendArgExtends(withOutput, inputs);
    PrefixTrans(b.command, withOptions, withOutput);
    PrefixTrans(b.command, withOutput, AppendArg(withOutput, inputs));
    AppendArg(withOutput, inputs)
  }

  lemma AppendArgExtends(acc: string, arg: string)
    ensures acc <= AppendArg(acc, arg)
  {
  }

  lemma PrefixTrans(a: string, b: string, c: string)
    requires a <= b && b <= c
    ensures a <= c
  {
    assert c[..|a|] == c[..|b|][..|a|];
  }

  /* ---------------------------------------------------------------------- */
  /* The tokens the options segment consists of                             */
  /* ---------------------------------------------------------------------- */

  /** A list value emits the option name glued to each escaped element, in list order. */
  function ValueTokens(name: string, values: seq<string>, esc: Escaper): (r: seq<string>)
    ensures |r| == |values|
    ensures forall i | 0 <= i < |values| :: r[i] == name + esc(values[i])
    decreases |values|
  {
    if values == [] then [] else [name + esc(values[0])] + ValueTokens(name, values[1..], esc)
  }

  function EntryTokens(e: Entry, esc: Escaper): seq<string> {
    match e.key
    case IntKey(_) => [PositionalText(e.value)]
    case StrKey(name) =>
      match e.value
      case Many(values) => ValueTokens(name, values, esc)
      case One(v) => [name + esc(v)]
      case NoValue => [name]
  }

  function EntriesTokens(es: seq<Entry>, esc: Escaper): seq<string>
    decreases |es|
  {
    if es == [] then [] else EntryTokens(es[0], esc) + EntriesTokens(es[1..], esc)
  }

  function SfxTokens(b: SevenZip): seq<string> {
    if Empty(b.sfxName) then [] else ["-sfx" + b.pathToBinary + b.sfxName]
  }

  function OptionTokens(b: SevenZip, esc: Escaper): seq<string> {
    SfxTokens(b) + EntriesTokens(b.options, esc)
  }

  /** Entries are emitted in sequence order: the tokens of a concatenation are the concatenated tokens. */
  lemma {:induction false} EntriesTokensConcat(a: seq<Entry>, c: seq<Entry>, esc: Escaper)
    ensures EntriesTokens(a + c, esc) == EntriesTokens(a, esc) + EntriesTokens(c, esc)
    decreases |a|
  {
    if a == [] {
      assert a + c == c;
    } else {
      assert (a + c)[1..] == a[1..] + c;
      EntriesTokensConcat(a[1..], c, esc);
    }
  }

  lemma SpacedOne(acc: string, t: string)
    ensures Spaced(acc, [t]) == AppendSep(acc, t)
  {
    assert [t][1..] == [];
  }

  lemma {:induction false} AppendValuesTokens(acc: string, name: string, values: seq<string>, esc: Escaper)
    ensures AppendValues(acc, name, values, esc) == Spaced(acc, ValueTokens(name, values, esc))
    decreases |values|
  {
    if values != [] {
      AppendValuesTokens(AppendOneOption(acc, name, Some(values[0]), esc), name, values[1..], esc);
      var ts := ValueTokens(name, values, esc);
      assert ts[1..] == ValueTokens(name, values[1..], esc);
    }
  }

  lemma AppendEntryTokens(acc: string, e: Entry, esc: Escaper)
    ensures AppendEntry(acc, e, esc) == Spaced(acc, EntryTokens(e, esc))
  {
    match e.key
    case IntKey(_) =>
      SpacedOne(acc, PositionalText(e.value));
    case StrKey(name) =>
      match e.value
      case Many(values) => AppendValuesTokens(acc, name, values, esc);
      case One(v) => SpacedOne(acc, name + esc(v));
      case NoValue => SpacedOne(acc, name);
  }

  lemma {:induction false} AppendEntriesTokens(acc: string, es: seq<Entry>, esc: Escaper)
    ensures AppendEntries(acc, es, esc) == Spaced(acc, EntriesTokens(es, esc))
    decreases |es|
  {
    if es != [] {
      AppendEntryTokens(acc, es[0], esc);
      AppendEntriesTokens(AppendEntry(acc, es[0], esc), es[1..], esc);
      SpacedConcat(acc, EntryTokens(es[0], esc), EntriesTokens(es[1..], esc));
    }
  }

  /** `constructOptions` appends exactly the option tokens, in order, with the separator rule. */
  lemma ConstructOptionsTokens(b: SevenZip, esc: Escaper)
    ensures ConstructOptions(b, esc) == Spaced("", OptionTokens(b, esc))
  {
    var start := if !Empty(b.sfxName) then "-sfx" + FullPathToSfx(b).value else "";
    if !Empty(b.sfxName) {
      assert "-sfx" + (b.pathToBinary + b.sfxName) == "-sfx" + b.pathToBinary + b.sfxName;
      SpacedOne("", "-sfx" + b.pathToBinary + b.sfxName);
    }
    assert start == Spaced("", SfxTokens(b));
    AppendEntriesTokens(start, b.options, esc);
    SpacedConcat("", SfxTokens(b), EntriesTokens(b.options, esc));
  }

  /**
   * The sfx switch: with a stub named, `-sfx` + binary directory + stub name
   * (unescaped) opens the options segment; without one, the segment holds
   * only the entries' tokens.
   */
  lemma SfxFirst(b: SevenZip, esc: Escaper)
    ensures !Empty(b.sfxName) ==>
      var sfx := "-sfx" + b.pathToBinary + b.sfxName;
      |sfx| <= |ConstructOptions(b, esc)| && ConstructOptions(b, esc)[..|sfx|] == sfx
    ensures Empty(b.sfxName) ==> ConstructOptions(b, esc) == Spaced("", EntriesTokens(b.options, esc))
  {
    var entries := EntriesTokens(b.options, esc);
    ConstructOptionsTokens(b, esc);
    if !Empty(b.sfxName) {
      var sfx := "-sfx" + b.pathToBinary + b.sfxName;
      assert OptionTokens(b, esc) == [sfx] + entries;
      SpacedFirstToken(sfx, entries);
    } else {
      assert OptionTokens(b, esc) == entries;
    }
  }

  /* ---------------------------------------------------------------------- */
  /* Well-behaved inputs: the segments are plain space-joined token lists   */
  /* ---------------------------------------------------------------------- */

  /**
   * Option data whose raw (unescaped) pieces are themselves clean tokens:
   * the stub name, bare flag names and integer-keyed values are non-empty
   * and do not end in a space, and no integer-keyed entry is `null`.
   */
  predicate PlainEntry(e: Entry) {
    match e.key
    case IntKey(_) => e.value.Many? || (e.value.One? && Clean(e.value.s))
    case StrKey(name) => e.value.NoValue? ==> Clean(name)
  }

  predicate PlainOptions(b: SevenZip) {
    && (Empty(b.sfxName) || !EndsInSpace(b.sfxName))
    && forall i | 0 <= i < |b.options| :: PlainEntry(b.options[i])
  }

  lemma GlueClean(name: string, t: string)
    requires Clean(t)
    ensures Clean(name + t)
  {
    assert (name + t)[|name + t| - 1] == t[|t| - 1];
  }

  lemma EntryTokensClean(e: Entry, esc: Escaper)
    requires Quotes(esc) && PlainEntry(e)
    ensures AllClean(EntryTokens(e, esc))
  {
    match e.key
    case IntKey(_) =>
    case StrKey(name) =>
      match e.value
      case Many(values) =>
        forall i | 0 <= i < |values| ensures Clean(ValueTokens(name, values, esc)[i]) {
          QuotedIsClean(esc, values[i]);
          GlueClean(name, esc(values[i]));
        }
      case One(v) =>
        QuotedIsClean(esc, v);
        GlueClean(name, esc(v));
      case NoValue =>
  }

  lemma {:induction false} EntriesTokensClean(es: seq<Entry>, esc: Escaper)
    requires Quotes(esc)
    requires forall i | 0 <= i < |es| :: PlainEntry(es[i])
    ensures AllClean(EntriesTokens(es, esc))
    decreases |es|
  {
    if es != [] {
      EntryTokensClean(es[0], esc);
      EntriesTokensClean(es[1..], esc);
    }
  }

  lemma OptionTokensClean(b: SevenZip, esc: Escaper)
    requires Quotes(esc) && PlainOptions(b)
    ensures AllClean(OptionTokens(b, esc))
  {
    EntriesTokensClean(b.options, esc);
    if !Empty(b.sfxName) {
      GlueClean("-sfx" + b.pathToBinary, b.sfxName);
    }
  }

  /** For plain option data the options segment is its tokens joined by single spaces. */
  lemma ConstructOptionsJoin(b: SevenZip, esc: Escaper)
    requires Quotes(esc) && PlainOptions(b)
    ensures ConstructOptions(b, esc) == JoinSpace(OptionTokens(b, esc))
    ensures ConstructOptions(b, esc) == "" <==> OptionTokens(b, esc) == []
  {
    ConstructOptionsTokens(b, esc);
    OptionTokensClean(b, esc);
    SpacedFromEmpty(OptionTokens(b, esc));
    if OptionTokens(b, esc) != [] {
      JoinSpaceClean(OptionTokens(b, esc));
    }
  }

  /**
   * The input-file segment is empty exactly when there are no input files;
   * otherwise it is a clean token that `appendArg` never skips.
   */
  lemma InputFilesSegment(files: seq<string>, esc: Escaper)
    requires Quotes(esc)
    ensures ConstructInputFiles(files, esc) == "" <==> files == []
    ensures files != [] ==> Clean(ConstructInputFiles(files, esc)) && !Empty(ConstructInputFiles(files, esc))
  {
    if files != [] {
      var escaped := EscapeAll(files, esc);
      forall i | 0 <= i < |escaped| ensures Clean(escaped[i]) {
        QuotedIsClean(esc, files[i]);
      }
      JoinSpaceClean(escaped);
      QuotedIsClean(esc, files[0]);
      assert |ConstructInputFiles(files, esc)| >= |escaped[0]| >= 2;
    }
  }

  /** Adding an input file appends its escaped form after one space, or alone when it is the first. */
  lemma AddInputFileSegment(b: SevenZip, file: string, esc: Escaper)
    ensures ConstructInputFiles(AddInputFile(b, file).inputFiles, esc) ==
      if b.inputFiles == [] then esc(file)
      else ConstructInputFiles(b.inputFiles, esc) + " " + esc(file)
  {
    var before := EscapeAll(b.inputFiles, esc);
    var after := EscapeAll(b.inputFiles + [file], esc);
    assert after == before + [esc(file)];
    if b.inputFiles != [] {
      JoinSpaceSnoc(before, esc(file));
    } else {
      assert after == [esc(file)];
    }
  }

  lemma EntriesTokensSnoc(es: seq<Entry>, e: Entry, esc: Escaper)
    ensures EntriesTokens(es + [e], esc) == EntriesTokens(es, esc) + EntryTokens(e, esc)
  {
    EntriesTokensConcat(es, [e], esc);
    assert [e][1..] == [];
    assert EntriesTokens([e], esc) == EntryTokens(e, esc) + EntriesTokens([], esc);
  }

  /** Appending an entry appends its tokens to the option tokens. */
  lemma OptionTokensSnoc(b: SevenZip, e: Entry, esc: Escaper)
    ensures OptionTokens(b.(options := b.options + [e]), esc) == OptionTokens(b, esc) + EntryTokens(e, esc)
  {
    var r := b.(options := b.options + [e]);
    assert SfxTokens(r) == SfxTokens(b);
    calc {
      OptionTokens(r, esc);
      SfxTokens(b) + EntriesTokens(b.options + [e], esc);
      { EntriesTokensSnoc(b.options, e, esc); }
      SfxTokens(b) + (EntriesTokens(b.options, esc) + EntryTokens(e, esc));
    }
  }

  /** Appending an entry appends its tokens to the options segment with the separator rule. */
  lemma OptionsSnoc(b: SevenZip, e: Entry, esc: Escaper)
    ensures ConstructOptions(b.(options := b.options + [e]), esc) ==
      Spaced(ConstructOptions(b, esc), EntryTokens(e, esc))
  {
    var r := b.(options := b.options + [e]);
    var added := EntryTokens(e, esc);
    var before := OptionTokens(b, esc);
    calc {
      ConstructOptions(r, esc);
      { ConstructOptionsTokens(r, esc); }
      Spaced("", OptionTokens(r, esc));
      { OptionTokensSnoc(b, e, esc); }
      Spaced("", before + added);
      { SpacedConcat("", before, added); }
      Spaced(Spaced("", before), added);
      { ConstructOptionsTokens(b, esc); }
      Spaced(ConstructOptions(b, esc), added);
    }
  }

  /** A new option's tokens go at the end of the options segment. */
  lemma AddOptionAppends(b: SevenZip, name: KeyArg, value: Value, esc: Escaper)
    requires Valid(b) && ArrayKey(name) !in Keys(b.options)
    ensures OptionTokens(AddOption(b, name, value), esc) ==
      OptionTokens(b, esc) + EntryTokens(Entry(ArrayKey(name), value), esc)
    ensures ConstructOptions(AddOption(b, name, value), esc) ==
      Spaced(ConstructOptions(b, esc), EntryTokens(Entry(ArrayKey(name), value), esc))
  {
    var e := Entry(ArrayKey(name), value);
    assert AddOption(b, name, value) == b.(options := b.options + [e]);
    OptionTokensSnoc(b, e, esc);
    OptionsSnoc(b, e, esc);
  }

  /** Overwriting the option at position i re-emits it at that position; its neighbours are untouched. */
  lemma AddOptionInPlace(b: SevenZip, name: KeyArg, value: Value, esc: Escaper, i: nat)
    requires Valid(b) && i < |b.options| && b.options[i].key == ArrayKey(name)
    ensures EntriesTokens(AddOption(b, name, value).options, esc) ==
      EntriesTokens(b.options[..i], esc) + EntryTokens(Entry(ArrayKey(name), value), esc)
        + EntriesTokens(b.options[i + 1..], esc)
  {
    var k := ArrayKey(name);
    var es := b.options;
    var e := Entry(k, value);
    assert AddOption(b, name, value).options == es[..i] + [e] + es[i + 1..];
    EntriesTokensConcat(es[..i] + [e], es[i + 1..], esc);
    EntriesTokensSnoc(es[..i], e, esc);
  }

  /* ---------------------------------------------------------------------- */
  /* The whole argument string                                              */
  /* ---------------------------------------------------------------------- */

  /** The segments `appendArg` keeps: those PHP does not consider empty. */
  function Present(segments: seq<string>): (r: seq<string>)
    ensures forall i | 0 <= i < |r| :: !Empty(r[i])
    decreases |segments|
  {
    if segments == [] then []
    else if Empty(segments[0]) then Present(segments[1..])
    else [segments[0]] + Present(segments[1..])
  }

  /** The non-empty pieces of the argument string, in the order the source appends them. */
  function ArgSegments(b: SevenZip, esc: Escaper): seq<string> {
    (if b.command == "" then [] else [b.command])
    + Present([ConstructOptions(b, esc), b.outputFile, ConstructInputFiles(b.inputFiles, esc)])
  }

  lemma AppendArgStep(acc: string, x: string, rest: seq<string>)
    ensures Spaced(AppendArg(acc, x), Present(rest)) == Spaced(acc, Present([x] + rest))
  {
    assert ([x] + rest)[1..] == rest;
    if !Empty(x) {
      assert ([x] + Present(rest))[1..] == Present(rest);
    }
  }

  /** Three `appendArg` calls are the separator fold over the segments that are present. */
  lemma ThreeArgsSpaced(acc: string, x: string, y: string, z: string)
    ensures AppendArg(AppendArg(AppendArg(acc, x), y), z) == Spaced(acc, Present([x, y, z]))
  {
    var s1 := AppendArg(acc, x);
    var s2 := AppendArg(s1, y);
    AppendArgStep(s2, z, []);
    assert [z] + [] == [z];
    AppendArgStep(s1, y, [z]);
    assert [y] + [z] == [y, z];
    AppendArgStep(acc, x, [y, z]);
    assert [x] + [y, z] == [x, y, z];
  }

  lemma ConstructArgsSpaced(b: SevenZip, esc: Escaper)
    ensures ConstructArgs(b, esc) ==
      Spaced(b.command, Present([ConstructOptions(b, esc), b.outputFile, ConstructInputFiles(b.inputFiles, esc)]))
  {
    ThreeArgsSpaced(b.command, ConstructOptions(b, esc), b.outputFile, ConstructInputFiles(b.inputFiles, esc));
  }

  lemma {:induction false} PresentClean(segments: seq<string>)
    requires forall i | 0 <= i < |segments| :: !EndsInSpace(segments[i])
    ensures AllClean(Present(segments))
    decreases |segments|
  {
    if segments != [] {
      PresentClean(segments[1..]);
    }
  }

  /**
   * `constructArgs` for well-behaved inputs: command, options segment, output
   * file and input-file segment, each present only when non-empty, joined by
   * single spaces; an absent segment leaves no separator behind.
   */
  lemma ConstructArgsJoin(b: SevenZip, esc: Escaper)
    requires Quotes(esc) && PlainOptions(b)
    requires !EndsInSpace(b.command) && !EndsInSpace(b.outputFile)
    ensures ConstructArgs(b, esc) == JoinSpace(ArgSegments(b, esc))
  {
    var opts := ConstructOptions(b, esc);
    var inputs := ConstructInputFiles(b.inputFiles, esc);
    ConstructOptionsJoin(b, esc);
    if OptionTokens(b, esc) != [] {
      OptionTokensClean(b, esc);
      JoinSpaceClean(OptionTokens(b, esc));
    }
    InputFilesSegment(b.inputFiles, esc);
    ThreeArgsJoin(b.command, opts, b.outputFile, inputs);
  }

  /** With no segment ending in a space, the three `appendArg` calls space-join the non-empty pieces. */
  lemma ThreeArgsJoin(acc: string, x: string, y: string, z: string)
    requires !EndsInSpace(acc) && !EndsInSpace(x) && !EndsInSpace(y) && !EndsInSpace(z)
    ensures AppendArg(AppendArg(AppendArg(acc, x), y), z) ==
      JoinSpace((if acc == "" then [] else [acc]) + Present([x, y, z]))
  {
    var present := Present([x, y, z]);
    var lead: seq<string> := if acc == "" then [] else [acc];
    PresentClean([x, y, z]);
    calc {
      AppendArg(AppendArg(AppendArg(acc, x), y), z);
      { ThreeArgsSpaced(acc, x, y, z); }
      Spaced(acc, present);
      { if acc == "" { SpacedFromEmpty(present); assert lead + present == present; }
        else { SpacedJoin(acc, present); } }
      JoinSpace(lead + present);
    }
  }
}
