/** The copyright check of the onbld tools
    (usr/src/tools/onbld/Checks/Copyright.py): a source file passes when
    one of its lines is a Delphix copyright notice that claims the current
    year.

    The three regular expressions are stated as predicates over positions
    of the line, with Python's search semantics: a match may start
    anywhere, `$` matches at the end of the line or just before one final
    newline, `.` matches anything but a newline, `\d` is an ASCII digit
    and `\b` is a change between ASCII word and non-word characters (or
    the line's edge). The current year is a parameter. */
module CopyrightCheck {
  import opened Common

  predicate IsWordChar(c: char)
  {
    'a' <= c <= 'z' || 'A' <= c <= 'Z' || IsDigit(c) || c == '_'
  }

  /** The year as strftime('%Y') spells it. */
  type Year = y: string | |y| == 4 && forall i | 0 <= i < 4 :: IsDigit(y[i]) witness "2014"

  /** `lit` occurs in `line` at position `i`. */
  predicate HasAt(line: string, i: int, lit: string)
  {
    0 <= i && i + |lit| <= |line| && line[i..i + |lit|] == lit
  }

  // ---------------------------------------------------------------------
  // is_copyright:  Copyright (?!\[yyyy\])
  // ---------------------------------------------------------------------

  predicate CopyrightAt(line: string, i: int)
  {
    HasAt(line, i, "Copyright ") && !HasAt(line, i + 10, "[yyyy]")
  }

  predicate IsCopyright(line: string)
  {
    exists i | 0 <= i <= |line| :: CopyrightAt(line, i)
  }

  // ---------------------------------------------------------------------
  // is_delphix_copyright:
  //   Copyright \(c\) (20\d\d, )?20\d\d by Delphix\. All rights reserved\.$
  // ---------------------------------------------------------------------

  const DELPHIX_TAIL := " by Delphix. All rights reserved."

  /** 20\d\d at position `j`. */
  predicate CenturyYearAt(line: string, j: int)
  {
    HasAt(line, j, "20") && j + 4 <= |line| && IsDigit(line[j + 2]) && IsDigit(line[j + 3])
  }

  /** The tail, then `$`. */
  predicate TailAt(line: string, k: int)
  {
    0 <= k <= |line| && (line[k..] == DELPHIX_TAIL || line[k..] == DELPHIX_TAIL + "\n")
  }

  predicate DelphixAt(line: string, i: int)
  {
    && HasAt(line, i, "Copyright (c) ")
    && CenturyYearAt(line, i + 14)
    && ((HasAt(line, i + 18, ", ") && CenturyYearAt(line, i + 20) && TailAt(line, i + 24))
        || TailAt(line, i + 18))
  }

  predicate IsDelphixCopyright(line: string)
  {
    exists i | 0 <= i <= |line| :: DelphixAt(line, i)
  }

  // ---------------------------------------------------------------------
  // is_current_copyright:  Copyright.*\b<year>\b
  // ---------------------------------------------------------------------

  /** `\b` at position `p`. */
  predicate WordBoundary(line: string, p: int)
    requires 0 <= p <= |line|
  {
    (p > 0 && IsWordChar(line[p - 1])) != (p < |line| && IsWordChar(line[p]))
  }

  /** "Copyright" at `i`, then no newline up to `k`, then the year as a
      whole word at `k`. */
  predicate CurrentAt(line: string, year: Year, i: int, k: int)
  {
    && HasAt(line, i, "Copyright")
    && i + 9 <= k
    && HasAt(line, k, year)
    && '\n' !in line[i + 9..k]
    && WordBoundary(line, k)
    && WordBoundary(line, k + 4)
  }

  predicate IsCurrentCopyright(line: string, year: Year)
  {
    exists i, k | 0 <= i <= k <= |line| :: CurrentAt(line, year, i, k)
  }

  /** Every Delphix notice is a copyright notice. */
  lemma DelphixIsCopyright(line: string)
    requires IsDelphixCopyright(line)
    ensures IsCopyright(line)
  {
    var i :| 0 <= i <= |line| && DelphixAt(line, i);
    PrefixCopyright(line, i);
  }

  /** "Copyright (c) " is a "Copyright " not followed by "[yyyy]". */
  lemma PrefixCopyright(line: string, i: int)
    requires HasAt(line, i, "Copyright (c) ")
    ensures CopyrightAt(line, i)
  {
    var w := line[i..i + 14];
    assert w == "Copyright (c) ";
    assert line[i..i + 10] == w[..10];
    assert w[..10] == "Copyright ";
    assert i + 16 <= |line| ==> line[i + 10..i + 16][0] == w[10];
  }

  /** A Delphix notice that names the current year, as its only or as
      either of its two years, claims the current year. */
  lemma DelphixNamingYearIsCurrent(line: string, year: Year, i: int)
    requires DelphixAt(line, i)
    requires HasAt(line, i + 14, year) || (HasAt(line, i + 18, ", ") && HasAt(line, i + 20, year))
    ensures IsCurrentCopyright(line, year)
  {
    assert line[i..i + 9] == line[i..i + 14][..9];
    assert line[i + 13] == line[i..i + 14][13] == ' ';
    assert forall p | i + 14 <= p < i + 18 :: IsDigit(line[p]) by {
      forall p | i + 14 <= p < i + 18 ensures IsDigit(line[p]) {
        assert line[i + 14..i + 16] == "20";
        if p < i + 16 { assert line[p] == line[i + 14..i + 16][p - i - 14]; }
      }
    }
    assert !IsWordChar(line[i + 18]) by {
      if TailAt(line, i + 18) && !(HasAt(line, i + 18, ", ") && CenturyYearAt(line, i + 20) && TailAt(line, i + 24)) {
        assert line[i + 18] == line[i + 18..][0] == ' ';
      } else {
        assert line[i + 18] == line[i + 18..i + 20][0] == ',';
      }
    }
    if HasAt(line, i + 14, year) {
      assert '\n' !in line[i + 9..i + 14] by {
        assert line[i + 9..i + 14] == line[i..i + 14][9..];
      }
      assert CurrentAt(line, year, i, i + 14);
    } else {
      assert line[i + 19] == line[i + 18..i + 20][1] == ' ';
      assert forall p | i + 20 <= p < i + 24 :: IsDigit(line[p]) by {
        forall p | i + 20 <= p < i + 24 ensures IsDigit(line[p]) {
          assert line[p] == line[i + 20..i + 24][p - i - 20];
        }
      }
      assert line[i + 24] == line[i + 24..][0] == ' ';
      assert '\n' !in line[i + 9..i + 20] by {
        assert line[i + 9..i + 20] == line[i..i + 14][9..] + line[i + 14..i + 18] + line[i + 18..i + 20];
      }
      assert CurrentAt(line, year, i, i + 20);
    }
  }

  // ---------------------------------------------------------------------
  // copyright(fh, filename, output)
  // ---------------------------------------------------------------------

  /** The line the check is looking for. */
  predicate GoodLine(line: string, year: Year)
  {
    IsCopyright(line) && IsDelphixCopyright(line) && IsCurrentCopyright(line, year)
  }

  /** rights, companyrights, goodrights. */
  datatype Counts = Counts(rights: nat, company: nat, good: nat)

  function Plus(a: Counts, b: Counts): Counts
  {
    Counts(a.rights + b.rights, a.company + b.company, a.good + b.good)
  }

  /** What one line adds to the counters. */
  function LineCounts(line: string, year: Year): Counts
  {
    if !IsCopyright(line) then Counts(0, 0, 0)
    else if !IsDelphixCopyright(line) then Counts(1, 0, 0)
    else if !IsCurrentCopyright(line, year) then Counts(1, 1, 0)
    else Counts(1, 1, 1)
  }

  /** The counters after the scan, which stops after the first good line. */
  function ScanLines(lines: seq<string>, year: Year): Counts
    decreases |lines|
  {
    if lines == [] then Counts(0, 0, 0)
    else if GoodLine(lines[0], year) then LineCounts(lines[0], year)
    else Plus(LineCounts(lines[0], year), ScanLines(lines[1..], year))
  }

  /** The return value and the one message `err` writes, if any. */
  function Report(c: Counts, name: string): (r: (nat, Option<string>))
    ensures r.0 == 0 <==> r.1.None?
    ensures r.0 == 0 <==> c.rights != 0 && c.company != 0 && c.good != 0
    ensures c.rights == 0 ==> r.1 == Some(name + ": no copyright message found\n")
    ensures c.rights != 0 && c.company == 0 ==> r.1 == Some(name + ": missing or mistyped Delphix copyright\n")
    ensures c.rights != 0 && c.company != 0 && c.good == 0 ==>
      r.1 == Some(name + ": no copyright claim for current year found\n")
  {
    if c.rights == 0 then (1, Some(name + ": no copyright message found\n"))
    else if c.company == 0 then (1, Some(name + ": missing or mistyped Delphix copyright\n"))
    else if c.good == 0 then (1, Some(name + ": no copyright claim for current year found\n"))
    else (0, None)
  }

  /** The counters are nested and at most one line is good. */
  lemma {:induction false} CountsOrdered(lines: seq<string>, year: Year)
    ensures var c := ScanLines(lines, year);
      c.rights >= c.company >= c.good && c.good <= 1
    decreases |lines|
  {
    if lines != [] && !GoodLine(lines[0], year) {
      CountsOrdered(lines[1..], year);
    }
  }

  /** goodrights is set exactly when some line is good. */
  lemma {:induction false} GoodIffGoodLine(lines: seq<string>, year: Year)
    ensures ScanLines(lines, year).good == 1 <==> exists k | 0 <= k < |lines| :: GoodLine(lines[k], year)
    decreases |lines|
  {
    if lines != [] {
      GoodIffGoodLine(lines[1..], year);
      if !GoodLine(lines[0], year) {
        assert LineCounts(lines[0], year).good == 0;
        forall k | 1 <= k < |lines| ensures lines[k] == lines[1..][k - 1] {}
        if exists k | 0 <= k < |lines| :: GoodLine(lines[k], year) {
          var k :| 0 <= k < |lines| && GoodLine(lines[k], year);
          assert GoodLine(lines[1..][k - 1], year);
        }
      }
    }
  }

  /** Nothing after the first good line is looked at. */
  lemma {:induction false} ScanStopsAtFirstGood(lines: seq<string>, year: Year, k: nat)
    requires k < |lines| && GoodLine(lines[k], year)
    requires forall j | 0 <= j < k :: !GoodLine(lines[j], year)
    ensures ScanLines(lines, year) == ScanLines(lines[..k + 1], year)
    decreases k
  {
    if k > 0 {
      assert lines[..k + 1][1..] == lines[1..][..k];
      ScanStopsAtFirstGood(lines[1..], year, k - 1);
    }
  }

  /** The check passes, silently, exactly when some line is a Delphix
      copyright notice claiming the current year; otherwise exactly one
      message is written. */
  lemma CheckPassesIffGoodLine(lines: seq<string>, year: Year, name: string)
    ensures var r := Report(ScanLines(lines, year), name);
      (r.0 == 0 <==> exists k | 0 <= k < |lines| :: GoodLine(lines[k], year))
      && (r.0 == 0 <==> r.1.None?)
  {
    CountsOrdered(lines, year);
    GoodIffGoodLine(lines, year);
  }

  /** copyright(fh, filename, output): the scan of `fh`'s lines. A missing
      or empty file name falls back to the stream's name. */
  method Copyright(lines: seq<string>, year: Year, filename: Option<string>, fhName: string)
    returns (ret: nat, rights: nat, companyRights: nat, goodRights: nat, message: Option<string>)
    ensures Counts(rights, companyRights, goodRights) == ScanLines(lines, year)
    ensures (ret, message) == Report(ScanLines(lines, year),
                                     if filename.None? || filename.value == "" then fhName else filename.value)
  {
    var name := if filename.None? || filename.value == "" then fhName else filename.value;
    ret, rights, goodRights, companyRights := 0, 0, 0, 0;
    var i := 0;
    while i < |lines|
      invariant 0 <= i <= |lines|
      invariant Plus(Counts(rights, companyRights, goodRights), ScanLines(lines[i..], year)) == ScanLines(lines, year)
      invariant goodRights == 0
    {
      var line := lines[i];
      assert lines[i..][0] == line && lines[i..][1..] == lines[i + 1..];
      if IsCopyright(line) {
        rights := rights + 1;
        if IsDelphixCopyright(line) {
          companyRights := companyRights + 1;
          if IsCurrentCopyright(line, year) {
            goodRights := goodRights + 1;
            break;
          }
        }
      }
      i := i + 1;
    }
    if i == |lines| {
      assert lines[i..] == [];
    }
    ret, message := Report(Counts(rights, companyRights, goodRights), name).0,
                    Report(Counts(rights, companyRights, goodRights), name).1;
  }
}
