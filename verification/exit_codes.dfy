/** `checkResultCode`: what an exit code of 7z means for the caller. */
module ExitCodes {
  import opened Php
  import opened Outcomes

  /** The `SevenZipError` exception: the exit code and a human-readable message. */
  datatype SevenZipError = SevenZipError(code: int, message: string)

  const FatalError: string := "Fatal error"
  const CommandLineError: string := "Command line error"
  const NotEnoughMemory: string := "Not enough memory for operation"
  const UserStopped: string := "User stopped the process"
  const GenericPrefix: string := "Error code: "

  /** The codes that have a message of their own. */
  predicate Known(code: int) {
    code == 2 || code == 7 || code == 8 || code == 255
  }

  /**
   * Codes up to 1 pass (1 is 7z's "some files were skipped" warning); every
   * larger code fails with an error carrying that code and a fixed message,
   * or a generic message embedding the code in decimal.
   */
  function CheckResultCode(code: int): (r: Outcome<SevenZipError>)
    ensures r.Pass? <==> code <= 1
    ensures r.Fail? ==> r.error.code == code
    ensures code == 2 ==> r == Fail(SevenZipError(2, FatalError))
    ensures code == 7 ==> r == Fail(SevenZipError(7, CommandLineError))
    ensures code == 8 ==> r == Fail(SevenZipError(8, NotEnoughMemory))
    ensures code == 255 ==> r == Fail(SevenZipError(255, UserStopped))
    ensures code > 1 && !Known(code) ==> r == Fail(SevenZipError(code, GenericPrefix + IntToString(code)))
  {
    if code > 1 then
      var message :=
        match code
        case 2 => FatalError
        case 7 => CommandLineError
        case 8 => NotEnoughMemory
        case 255 => UserStopped
        case _ => GenericPrefix + IntToString(code);
      Fail(SevenZipError(code, message))
    else
      Pass
  }

  /** The generic message can be read back: its tail is the code in decimal. */
  lemma GenericMessageDecodes(code: int)
    requires code > 1 && !Known(code)
    ensures var m := CheckResultCode(code).error.message;
      && |GenericPrefix| <= |m|
      && m[..|GenericPrefix|] == GenericPrefix
      && IsIntString(m[|GenericPrefix|..])
      && IntValue(m[|GenericPrefix|..]) == code
  {
    var m := CheckResultCode(code).error.message;
    assert m[|GenericPrefix|..] == IntToString(code);
  }

  /** The message alone identifies the exit code: no two failing codes share one. */
  lemma MessageDeterminesCode(c1: int, c2: int)
    requires c1 > 1 && c2 > 1
    requires CheckResultCode(c1).error.message == CheckResultCode(c2).error.message
    ensures c1 == c2
  {
    var m1 := CheckResultCode(c1).error.message;
    var m2 := CheckResultCode(c2).error.message;
    if !Known(c1) && !Known(c2) {
      assert m1[|GenericPrefix|..] == IntToString(c1);
      assert m2[|GenericPrefix|..] == IntToString(c2);
    } else if !Known(c1) {
      GenericIsNotFixed(c1);
    } else if !Known(c2) {
      GenericIsNotFixed(c2);
    }
  }

  lemma GenericIsNotFixed(code: int)
    requires code > 1 && !Known(code)
    ensures CheckResultCode(code).error.message !in {FatalError, CommandLineError, NotEnoughMemory, UserStopped}
  {
    var m := CheckResultCode(code).error.message;
    assert m[0] == 'E';
  }
}
