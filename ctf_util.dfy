/**
 * Small helpers of the CTF conversion tools: NULL-aware string equality,
 * temporary-name construction, type-name display, and the diagnostic
 * routines whose behaviour depends on the global debug level.
 */
module CtfUtil {
  import opened Common

  /**
   * strcmp: the difference of the first pair of differing characters, a
   * missing character (the terminator) counting as 0.
   */
  function Strcmp(a: CString, b: CString): int
    decreases |a|
  {
    if a == [] && b == [] then 0
    else if a == [] then 0 - (b[0] as int)
    else if b == [] then a[0] as int
    else if a[0] != b[0] then (a[0] as int) - (b[0] as int)
    else Strcmp(a[1..], b[1..])
  }

  /** strcmp reports equality exactly for equal strings. */
  lemma {:induction false} StrcmpZeroIff(a: CString, b: CString)
    ensures Strcmp(a, b) == 0 <==> a == b
    decreases |a|
  {
    if a != [] && b != [] && a[0] == b[0] {
      StrcmpZeroIff(a[1..], b[1..]);
      assert a == [a[0]] + a[1..] && b == [b[0]] + b[1..];
    } else if a == [] && b != [] {
      assert b[0] != '\0' by { assert b[0] in b; }
    } else if a != [] && b == [] {
      assert a[0] != '\0' by { assert a[0] in a; }
    }
  }

  /**
   * streq: two NULL pointers are equal, a NULL and a non-NULL string are
   * not, and two strings are equal when strcmp finds no difference.  So it is
   * exactly equality of the optional strings, hence reflexive and symmetric.
   */
  function Streq(s1: Option<CString>, s2: Option<CString>): (r: bool)
    ensures r <==> s1 == s2
  {
    if s1.None? then s2.None?
    else if s2.None? then false
    else
      StrcmpZeroIff(s1.value, s2.value);
      Strcmp(s1.value, s2.value) == 0
  }

  /**
   * mktmpname: a fresh string holding the original name followed by the
   * suffix; the allocation is sized for exactly that plus the terminator.
   */
  function Mktmpname(origname: CString, suffix: CString): (r: CString)
    ensures |r| == |origname| + |suffix|
    ensures r[..|origname|] == origname && r[|origname|..] == suffix
  {
    assert forall c | c in origname + suffix :: c in origname || c in suffix;
    origname + suffix
  }

  /** The part of a type descriptor this model uses: its optional name. */
  datatype Tdesc = Tdesc(tName: Option<CString>)

  const ANON_NAME: CString := "(anon)"

  /** The display name of a type: its own name, or "(anon)" when it has none. */
  function TdescName(t: Tdesc): (r: CString)
    ensures t.tName.None? ==> r == ANON_NAME
    ensures t.tName.Some? ==> r == t.tName.value
  {
    if t.tName.None? then ANON_NAME else t.tName.value
  }

  // ---------------------------------------------------------------------
  // Diagnostics
  // ---------------------------------------------------------------------

  /**
   * A formatted diagnostic: its printf format (what the trailing-newline test
   * looks at) and the text it produces once its arguments are substituted.
   */
  datatype Message = Message(format: CString, text: string)

  /**
   * whine: "<kind>: <progname>: <text>", followed by ": <strerror(errno)>\n"
   * unless the format already ends in a newline.  The format must be
   * non-empty, since its last character is inspected.
   */
  function Whine(kind: string, progname: string, m: Message, errText: string): (out: string)
    requires |m.format| > 0
    ensures |kind + ": " + progname + ": " + m.text| <= |out|
    ensures out[..|kind + ": " + progname + ": " + m.text|] == kind + ": " + progname + ": " + m.text
    ensures m.format[|m.format| - 1] == '\n' <==> out == kind + ": " + progname + ": " + m.text
    ensures m.format[|m.format| - 1] != '\n' ==>
      out == kind + ": " + progname + ": " + m.text + ": " + errText + "\n"
  {
    var head := kind + ": " + progname + ": " + m.text;
    if m.format[|m.format| - 1] != '\n' then
      var tail := ": " + errText + "\n";
      assert |head + tail| > |head|;
      head + tail
    else head
  }

  /** What a diagnostic call leaves behind. */
  datatype Outcome = Outcome(stderr: string, cleanupRan: bool, exitStatus: Option<int>)

  /**
   * terminate: report the message, if any, as an ERROR, run the cleanup
   * hook if one is installed, and exit with status 1.
   */
  function Terminate(progname: string, m: Option<Message>, errText: string, cleanupSet: bool): (o: Outcome)
    requires m.Some? ==> |m.value.format| > 0
    ensures o.exitStatus == Some(1)
    ensures o.cleanupRan == cleanupSet
    ensures m.None? ==> o.stderr == ""
    ensures m.Some? ==> o.stderr == Whine("ERROR", progname, m.value, errText)
  {
    var out := if m.Some? then Whine("ERROR", progname, m.value, errText) else "";
    Outcome(out, cleanupSet, Some(1))
  }

  const TERMINATION_DUE_TO_WARNING: Message :=
    Message("Termination due to warning\n", "Termination due to warning\n")

  /**
   * warning: report the message as a WARNING; at debug level 3 or more every
   * warning is escalated to termination.
   */
  function Warning(debugLevel: int, progname: string, m: Message, errText: string, cleanupSet: bool): (o: Outcome)
    requires |m.format| > 0
    ensures o.exitStatus.Some? <==> debugLevel >= 3
    ensures o.exitStatus.Some? ==> o.exitStatus == Some(1) && o.cleanupRan == cleanupSet
    ensures o.exitStatus.None? ==> !o.cleanupRan
    ensures |Whine("WARNING", progname, m, errText)| <= |o.stderr| &&
      o.stderr[..|Whine("WARNING", progname, m, errText)|] == Whine("WARNING", progname, m, errText)
  {
    var w := Whine("WARNING", progname, m, errText);
    if debugLevel >= 3 then
      var t := Terminate(progname, Some(TERMINATION_DUE_TO_WARNING), errText, cleanupSet);
      Outcome(w + t.stderr, t.cleanupRan, t.exitStatus)
    else Outcome(w, false, None)
  }

  /** vadebug: "DEBUG: <text>" on the debug stream unless the level is too high. */
  function Vadebug(debugLevel: int, level: int, text: string): (out: string)
    ensures out != "" <==> level <= debugLevel
    ensures level <= debugLevel ==> |out| == 7 + |text| && out[..7] == "DEBUG: " && out[7..] == text
  {
    if level > debugLevel then "" else "DEBUG: " + text
  }

  /**
   * debug: the same filter, applied before handing over to vadebug; its own
   * check is redundant, so the two emit the same text.
   */
  function Debug(debugLevel: int, level: int, text: string): (out: string)
    ensures out == Vadebug(debugLevel, level, text)
  {
    if level > debugLevel then "" else Vadebug(debugLevel, level, text)
  }
}
