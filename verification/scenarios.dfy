/** Concrete builder chains and the command lines they produce. */
module Scenarios {
  import opened Php
  import opened Outcomes
  import opened Spacing
  import opened State
  import opened Assembly
  import opened ExitCodes
  import opened Runner

  function AddTwoFiles(path: string): SevenZip {
    var b := SetOutputFile(SetCommand(New(path), CommandAdd), "out.7z");
    AddInputFile(AddInputFile(b, "a.txt"), "b.txt")
  }

  lemma AddTwoFilesInputs(path: string, esc: Escaper)
    ensures ConstructInputFiles(AddTwoFiles(path).inputFiles, esc) == esc("a.txt") + " " + esc("b.txt")
  {
    var escaped := [esc("a.txt"), esc("b.txt")];
    assert AddTwoFiles(path).inputFiles == ["a.txt", "b.txt"];
    assert EscapeAll(["a.txt", "b.txt"], esc) == escaped;
    calc {
      JoinSpace(escaped);
      escaped[0] + " " + JoinSpace(escaped[1..]);
      { assert escaped[1..] == [esc("b.txt")]; }
      esc("a.txt") + " " + JoinSpace([esc("b.txt")]);
    }
  }

  lemma AddTwoFilesSegments(path: string, esc: Escaper)
    requires Quotes(esc)
    ensures ArgSegments(AddTwoFiles(path), esc) == ["a", "out.7z", ConstructInputFiles(AddTwoFiles(path).inputFiles, esc)]
  {
    var b := AddTwoFiles(path);
    var inputs := ConstructInputFiles(b.inputFiles, esc);
    InputFilesSegment(b.inputFiles, esc);
    assert ConstructOptions(b, esc) == "";
    var segs := [ConstructOptions(b, esc), b.outputFile, inputs];
    assert b.inputFiles != [];
    assert !Empty(inputs) && !Empty("out.7z");
    calc {
      Present(segs);
      Present(segs[1..]);
      { assert segs[1..] == ["out.7z", inputs]; }
      Present(["out.7z", inputs]);
      { assert ["out.7z", inputs][1..] == [inputs]; }
      ["out.7z"] + Present([inputs]);
      { assert [inputs][1..] == []; }
      ["out.7z"] + ([inputs] + Present([]));
      ["out.7z", inputs];
    }
  }

  lemma JoinThree(a: string, b: string, c: string)
    ensures JoinSpace([a, b, c]) == a + " " + b + " " + c
  {
    calc {
      JoinSpace([a, b, c]);
      { assert [a, b, c][1..] == [b, c]; }
      a + " " + JoinSpace([b, c]);
      { assert [b, c][1..] == [c]; }
      a + " " + (b + " " + JoinSpace([c]));
      a + " " + (b + " " + c);
    }
  }

  /** The argument string: verb, raw output file, then the escaped inputs. */
  lemma AddTwoFilesArgs(path: string, esc: Escaper)
    requires Quotes(esc)
    ensures ConstructArgs(AddTwoFiles(path), esc) == "a out.7z " + esc("a.txt") + " " + esc("b.txt")
  {
    var b := AddTwoFiles(path);
    var inputs := ConstructInputFiles(b.inputFiles, esc);
    calc {
      ConstructArgs(b, esc);
      { ConstructArgsJoin(b, esc); }
      JoinSpace(ArgSegments(b, esc));
      { AddTwoFilesSegments(path, esc); }
      JoinSpace(["a", "out.7z", inputs]);
      { JoinThree("a", "out.7z", inputs); }
      "a" + " " + "out.7z" + " " + inputs;
      { AddTwoFilesInputs(path, esc); }
      "a out.7z " + esc("a.txt") + " " + esc("b.txt");
    }
  }

  /** POSIX `escapeshellarg` on an argument that holds no single quote: wrap it in single quotes. */
  function PosixQuote(s: string): (r: string)
    ensures |r| == |s| + 2 && r[0] == '\'' && r[|r| - 1] == '\''
  {
    "'" + s + "'"
  }

  lemma PosixQuoteQuotes()
    ensures Quotes(PosixQuote)
  {
  }

  /** The same chain with the POSIX quoting: `a out.7z 'a.txt' 'b.txt'`. */
  lemma AddTwoFilesPosix(path: string)
    ensures ConstructArgs(AddTwoFiles(path), PosixQuote) == "a out.7z 'a.txt' 'b.txt'"
  {
    calc {
      ConstructArgs(AddTwoFiles(path), PosixQuote);
      { PosixQuoteQuotes(); AddTwoFilesArgs(path, PosixQuote); }
      "a out.7z " + PosixQuote("a.txt") + " " + PosixQuote("b.txt");
      "a out.7z " + "'a.txt'" + " " + "'b.txt'";
      "a out.7z 'a.txt' 'b.txt'";
    }
  }

  /**
   * Running that chain: exit code 0 returns 0 and clears the builder, exit
   * code 2 raises "Fatal error" and keeps the state.
   */
  lemma AddTwoFilesRun(path: string, esc: Escaper)
    ensures Run(AddTwoFiles(path), esc, 0).outcome == Success(0)
    ensures Run(AddTwoFiles(path), esc, 0).after == New(path)
    ensures Run(AddTwoFiles(path), esc, 2).outcome == Failure(SevenZipError(2, "Fatal error"))
    ensures Run(AddTwoFiles(path), esc, 2).after == AddTwoFiles(path)
  {
  }

  function TwoOptions(path: string): SevenZip {
    AddOption(AddOption(New(path), StringArg("-t7z"), NoValue), StringArg("-mx"), One("9"))
  }

  lemma TwoOptionsEntries(path: string)
    ensures TwoOptions(path).options == [Entry(StrKey("-t7z"), NoValue), Entry(StrKey("-mx"), One("9"))]
    ensures TwoOptions(path).sfxName == ""
  {
    assert ArrayKey(StringArg("-t7z")) == StrKey("-t7z") by {
      assert !IsDigit("t7z"[0]);
    }
    assert ArrayKey(StringArg("-mx")) == StrKey("-mx") by {
      assert !IsDigit("mx"[0]);
    }
    var b1 := AddOption(New(path), StringArg("-t7z"), NoValue);
    assert b1.options == [Entry(StrKey("-t7z"), NoValue)];
    assert StrKey("-mx") !in Keys(b1.options);
  }

  /** `addOption("-t7z")->addOption("-mx", "9")`: both options, in insertion order, the value escaped. */
  lemma TwoOptionsScenario(path: string, esc: Escaper)
    ensures ConstructOptions(TwoOptions(path), esc) == "-t7z -mx" + esc("9")
  {
    TwoOptionsEntries(path);
    TwoOptionsText(TwoOptions(path), esc);
  }

  lemma TwoOptionsText(b: SevenZip, esc: Escaper)
    requires b.options == [Entry(StrKey("-t7z"), NoValue), Entry(StrKey("-mx"), One("9"))]
    requires b.sfxName == ""
    ensures ConstructOptions(b, esc) == "-t7z -mx" + esc("9")
  {
    var e1 := Entry(StrKey("-t7z"), NoValue);
    var e2 := Entry(StrKey("-mx"), One("9"));
    calc {
      ConstructOptions(b, esc);
      AppendEntries("", [e1, e2], esc);
      { assert [e1, e2][1..] == [e2]; }
      AppendEntries(AppendEntry("", e1, esc), [e2], esc);
      { assert AppendEntry("", e1, esc) == "-t7z"; }
      AppendEntries("-t7z", [e2], esc);
      { assert [e2][1..] == []; }
      AppendEntry("-t7z", e2, esc);
      AppendSep("-t7z", "-mx" + esc("9"));
    }
  }

  /**
   * `addOption(5, "-y")` then `addOption("5", "-r")`: the string "5" names the
   * same array slot, so the second call overwrites the first, and the value
   * is emitted as a bare, unescaped token.
   */
  lemma NumericNameScenario(path: string, esc: Escaper)
    ensures AddOption(AddOption(New(path), IntArg(5), One("-y")), StringArg("5"), One("-r")).options
      == [Entry(IntKey(5), One("-r"))]
    ensures ConstructOptions(AddOption(AddOption(New(path), IntArg(5), One("-y")), StringArg("5"), One("-r")), esc)
      == "-r"
  {
    assert IsIntString("5") && IntValue("5") == 5 by {
      assert Canonical("5");
      assert "5"[..0] == [];
    }
    var b1 := AddOption(New(path), IntArg(5), One("-y"));
    assert b1.options == [Entry(IntKey(5), One("-y"))];
    assert IntKey(5) in Keys(b1.options);
    var b := AddOption(b1, StringArg("5"), One("-r"));
    var e := Entry(IntKey(5), One("-r"));
    assert b.options == [e];
    calc {
      ConstructOptions(b, esc);
      AppendEntries("", [e], esc);
      { assert [e][1..] == []; }
      AppendEntry("", e, esc);
      "-r";
    }
  }
}
