// MariaDBOutputStreamLogDispatcher: the log level a line of the server's
// console output is logged at.

module LogDispatcher {
  import opened Strings

  /** ch.vorburger.exec.OutputStreamType. */
  datatype OutputStreamType = Stdout | Stderr

  /** org.slf4j.event.Level. */
  datatype Level = Error | Warn | Info | Debug | Trace

  /**
   * dispatch: standard output is always INFO; any other stream is ERROR
   * exactly when the line contains "ERROR" or "error".
   */
  function Dispatch(t: OutputStreamType, line: string): (l: Level)
    ensures l == Info || l == Error
    ensures t == Stdout ==> l == Info
    ensures t != Stdout ==> (l == Error <==> Contains(line, "ERROR") || Contains(line, "error"))
  {
    if t == Stdout then Info
    else if Contains(line, "ERROR") || Contains(line, "error") then Error
    else Info
  }

  /** The match is case-sensitive: "Error" alone does not raise the level. */
  lemma DispatchIsCaseSensitive()
    ensures Dispatch(Stderr, "Error") == Info
    ensures Dispatch(Stderr, "an error") == Error
    ensures Dispatch(Stdout, "ERROR") == Info
  {
    forall i | 0 <= i
      ensures !OccursAt("Error", "ERROR", i) && !OccursAt("Error", "error", i)
    {
      if i == 0 {
        assert "Error"[0..5] == "Error";
      }
    }
    assert "an error"[3..8] == "error";
    assert OccursAt("an error", "error", 3);
  }

  /** Text around an error marker does not hide it. */
  lemma DispatchFindsMarker(t: OutputStreamType, before: string, after: string)
    requires t == Stderr
    ensures Dispatch(t, before + "ERROR" + after) == Error
    ensures Dispatch(t, before + "error" + after) == Error
  {
    ContainsMiddle(before, "ERROR", after);
    ContainsMiddle(before, "error", after);
  }
}
