/**
 * The LC_NUMERIC category of the C library's locale support: the fix-up done
 * after the category's data has been (re)loaded, the two legacy bytes kept for
 * binary compatibility, and the accessor for the locale in effect.  Reading
 * the locale file itself is a collaborator whose answer is an input here.
 */
module LcNumeric {
  import opened Common

  const CHAR_MAX: char := 127 as char

  /** The load results. */
  const LDP_LOADED: int := 0
  const LDP_CACHE: int := 1
  const LDP_ERROR: int := -1

  /** struct lc_numeric_T. */
  datatype NumericFields = NumericFields(decimalPoint: CString, thousandsSep: CString, grouping: CString)

  /** The C locale: ".", no thousands separator, no grouping. */
  const C_NUMERIC: NumericFields := NumericFields(".", "", [CHAR_MAX])

  /**
   * What loading the category's file answered: an error; the cache (the C
   * or POSIX locale, or the locale already loaded), saying whether a loaded
   * locale is in use; or freshly loaded fields, which are then in use.
   */
  datatype PartLoad =
    | LdpError
    | LdpCache(usingLocale: bool)
    | LdpLoaded(fields: NumericFields)

  function ResultCode(pl: PartLoad): int
  {
    match pl
    case LdpError => LDP_ERROR
    case LdpCache(_) => LDP_CACHE
    case LdpLoaded(_) => LDP_LOADED
  }

  /** The first byte of a C string; an empty one yields its terminator. */
  function FirstByte(s: CString): char
  {
    if s == [] then '\0' else s[0]
  }

  /** The legacy `_numeric` bytes derived from a set of fields. */
  function Legacy(f: NumericFields): seq<char>
  {
    [FirstByte(f.decimalPoint), FirstByte(f.grouping)]
  }

  /**
   * The category's global state: the loaded fields, whether they are in use,
   * the locale-changed flag and the two legacy bytes.
   */
  datatype NumericState = NumericState(locale: NumericFields, usingLocale: bool,
                                       nlocaleChanged: int, numeric: seq<char>)

  /** The locale the accessor returns for a state. */
  function Current(s: NumericState): NumericFields
  {
    if s.usingLocale then s.locale else C_NUMERIC
  }

  /**
   * The effect of __numeric_load_locale once the file has been read.
   * `fixGrouping` is the grouping-string normaliser.
   */
  function LoadStep(s: NumericState, pl: PartLoad, fixGrouping: CString -> CString): (r: NumericState)
    ensures pl.LdpError? ==> r == s
    ensures !pl.LdpError? ==> r.nlocaleChanged == 1
    ensures pl.LdpCache? ==>
      r.locale == s.locale && r.usingLocale == pl.usingLocale && r.numeric == ['.', CHAR_MAX]
    ensures pl.LdpLoaded? ==> r.usingLocale && r.locale.decimalPoint != ""
    ensures pl.LdpLoaded? ==>
      r.locale.decimalPoint == (if pl.fields.decimalPoint == "" then "." else pl.fields.decimalPoint) &&
      r.locale.thousandsSep == pl.fields.thousandsSep &&
      r.locale.grouping == fixGrouping(pl.fields.grouping)
    ensures pl.LdpLoaded? ==>
      r.numeric == [FirstByte(r.locale.decimalPoint), FirstByte(fixGrouping(pl.fields.grouping))]
  {
    match pl
    case LdpError => s
    case LdpCache(using) =>
      NumericState(s.locale, using, 1, Legacy(C_NUMERIC))
    case LdpLoaded(f) =>
      var dp := if f.decimalPoint == "" then C_NUMERIC.decimalPoint else f.decimalPoint;
      var loc := NumericFields(dp, f.thousandsSep, fixGrouping(f.grouping));
      NumericState(loc, true, 1, Legacy(loc))
  }

  /**
   * The legacy bytes track the locale in effect after every successful load
   * except a cache answer that keeps a loaded locale in use: that one resets
   * them to the C locale's bytes while the accessor still returns the loaded
   * locale.
   */
  lemma LegacyMirrorsCurrent(s: NumericState, pl: PartLoad, fixGrouping: CString -> CString)
    requires !pl.LdpError?
    ensures pl != LdpCache(true) ==>
      LoadStep(s, pl, fixGrouping).numeric == Legacy(Current(LoadStep(s, pl, fixGrouping)))
    ensures pl == LdpCache(true) ==>
      LoadStep(s, pl, fixGrouping).numeric == Legacy(C_NUMERIC) &&
      Current(LoadStep(s, pl, fixGrouping)) == s.locale
  {
  }

  /** A concrete state where the two disagree: a cached ',' locale. */
  lemma CachedLocaleLegacyDiffers(fixGrouping: CString -> CString)
    ensures var s := NumericState(NumericFields(",", ".", [3 as char]), true, 1, [',', 3 as char]);
      LoadStep(s, LdpCache(true), fixGrouping).numeric != Legacy(Current(LoadStep(s, LdpCache(true), fixGrouping)))
  {
    var s := NumericState(NumericFields(",", ".", [3 as char]), true, 1, [',', 3 as char]);
    var r := LoadStep(s, LdpCache(true), fixGrouping);
    assert r.numeric[0] == '.';
    assert Legacy(Current(r))[0] == ',';
  }

  /** A locale that was loaded is never seen with an empty decimal point. */
  lemma {:induction false} DecimalPointNeverEmpty(s: NumericState, loads: seq<PartLoad>, fixGrouping: CString -> CString)
    requires Current(s).decimalPoint != "" && s.locale.decimalPoint != ""
    ensures Current(LoadAll(s, loads, fixGrouping)).decimalPoint != ""
    ensures LoadAll(s, loads, fixGrouping).locale.decimalPoint != ""
    decreases |loads|
  {
    if loads != [] {
      DecimalPointNeverEmpty(LoadStep(s, loads[0], fixGrouping), loads[1..], fixGrouping);
    }
  }

  /** A sequence of loads, applied in order. */
  function LoadAll(s: NumericState, loads: seq<PartLoad>, fixGrouping: CString -> CString): NumericState
    decreases |loads|
  {
    if loads == [] then s else LoadAll(LoadStep(s, loads[0], fixGrouping), loads[1..], fixGrouping)
  }

  /** The category's globals. */
  class NumericLocale {
    var locale: NumericFields
    var usingLocale: bool
    var nlocaleChanged: int
    /** `_numeric`: the two legacy bytes. */
    const numeric: array<char>

    ghost predicate Valid()
      reads this
    {
      numeric.Length == 2
    }

    function State(): NumericState
      reads this, numeric
    {
      NumericState(locale, usingLocale, nlocaleChanged, numeric[..])
    }

    /** Start-up: the C locale is in effect and nothing has changed. */
    constructor()
      ensures Valid() && fresh(numeric)
      ensures State() == NumericState(C_NUMERIC, false, 0, Legacy(C_NUMERIC))
    {
      locale := C_NUMERIC;
      usingLocale := false;
      nlocaleChanged := 0;
      numeric := new char[2]['.', CHAR_MAX];
    }

    /** __numeric_load_locale, given what the file load answered. */
    method LoadLocale(pl: PartLoad, fixGrouping: CString -> CString) returns (ret: int)
      requires Valid()
      modifies this, numeric
      ensures Valid()
      ensures State() == LoadStep(old(State()), pl, fixGrouping)
      ensures ret == ResultCode(pl)
    {
      if pl.LdpError? {
        return LDP_ERROR;
      }
      if pl.LdpCache? {
        usingLocale := pl.usingLocale;
      } else {
        locale := pl.fields;
        usingLocale := true;
      }
      var leg := C_NUMERIC;
      nlocaleChanged := 1;
      if pl.LdpLoaded? {
        if locale.decimalPoint == "" {
          locale := locale.(decimalPoint := C_NUMERIC.decimalPoint);
        }
        locale := locale.(grouping := fixGrouping(locale.grouping));
        leg := locale;
      }
      numeric[0] := FirstByte(leg.decimalPoint);
      numeric[1] := FirstByte(leg.grouping);
      assert numeric[..] == Legacy(leg);
      ret := ResultCode(pl);
    }

    /** __get_current_numeric_locale. */
    function CurrentNumericLocale(): (r: NumericFields)
      reads this, numeric
      ensures r == Current(State())
      ensures usingLocale ==> r == locale
      ensures !usingLocale ==> r == C_NUMERIC
    {
      if usingLocale then locale else C_NUMERIC
    }
  }
}
