/** The decision logic of the disk-dmc firmware-download utility
    (usr/src/cmd/disk-dmc/disk-dmc.c): how a USCSI command outcome is
    classified, how the WRITE BUFFER command block is packed and how its
    outcome is overridden, the trimming of inquiry strings, the search for
    the drive model inside a firmware image, the firmware size bounds, the
    whole-disk name handed to libdiskmgt, and the command-line rules. */
module DiskDmc {
  import opened Common

  // ---------------------------------------------------------------------
  // uscsi_parse_status
  // ---------------------------------------------------------------------

  const STATUS_MASK: bv8 := 0x3E
  const STATUS_GOOD: byte := 0
  const STATUS_RESERVATION_CONFLICT: bv8 := 0x18
  const IMPOSSIBLE_RQ_STATUS: byte := 0xFF

  /** Sense keys (SPC-3 section 4.5.6). */
  const KEY_NO_SENSE: byte := 0x0
  const KEY_RECOVERABLE_ERROR: byte := 0x1
  const KEY_ILLEGAL_REQUEST: byte := 0x5
  const KEY_UNIT_ATTENTION: byte := 0x6

  /** The errno values the classifier tells apart. */
  datatype Errno = EAGAIN | EIO | OtherErrno

  datatype Sense = Sense(key: byte, asc: byte, ascq: byte)

  /** What one ioctl(USCSICMD) leaves behind. */
  datatype CmdOutcome = CmdOutcome(rc: int, errno: Errno, status: bv8, rqstatus: byte, sense: Sense)

  /** The branch of uscsi_parse_status taken; only `Completed` is success. */
  datatype Verdict =
    | TemporarilyUnavailable | Reserved | Unavailable | NoSenseData
    | BadSenseStatus | SenseError | IoError | UnknownError | Completed

  function Classify(o: CmdOutcome): Verdict
  {
    if o.rc == -1 && o.errno == EAGAIN then TemporarilyUnavailable
    else if o.status & STATUS_MASK == STATUS_RESERVATION_CONFLICT then Reserved
    else if o.rc == -1 && o.status == 0 && o.errno == EIO then Unavailable
    else if o.rqstatus == IMPOSSIBLE_RQ_STATUS then NoSenseData
    else if o.rqstatus != STATUS_GOOD then BadSenseStatus
    else if o.sense.key != KEY_RECOVERABLE_ERROR && o.sense.key != KEY_NO_SENSE then SenseError
    else if o.rc == -1 && o.errno == EIO then IoError
    else if o.rc != 0 then UnknownError
    else Completed
  }

  /** uscsi_parse_status: a command succeeded exactly when the ioctl
      returned 0, the disk is not reserved, the request-sense status is
      GOOD and the sense key is NO SENSE or RECOVERED ERROR. */
  function ParseStatus(o: CmdOutcome): (ok: bool)
    ensures ok <==>
      && o.rc == 0
      && o.status & STATUS_MASK != STATUS_RESERVATION_CONFLICT
      && o.rqstatus == STATUS_GOOD
      && (o.sense.key == KEY_NO_SENSE || o.sense.key == KEY_RECOVERABLE_ERROR)
    ensures o.rqstatus == IMPOSSIBLE_RQ_STATUS ==> !ok
  {
    Classify(o) == Completed
  }

  // ---------------------------------------------------------------------
  // uscsi_write_buffer_dmc: the command block and the outcome override
  // ---------------------------------------------------------------------

  const SCMD_WRITE_BUFFER: byte := 0x3B
  const CDB_GROUP1: nat := 10
  const MAX_FW_SIZE_IN_BYTES: nat := 16777215

  /** The big-endian 24-bit number held in three bytes. */
  function Be24(hi: byte, mid: byte, lo: byte): nat
  {
    hi * 0x1_0000 + mid * 0x100 + lo
  }

  /** The WRITE BUFFER command block (SPC-3, WRITE BUFFER): the mode in the
      low five bits of byte 1, the parameter list length in bytes 6 to 8,
      everything else zero. */
  function WriteBufferCdb(mode: bv8, fwLen: nat): (cdb: seq<byte>)
    ensures |cdb| == CDB_GROUP1
    ensures cdb[0] == SCMD_WRITE_BUFFER && cdb[1] == (mode & 0x1F) as int && cdb[1] < 32
    ensures forall i | 2 <= i < 6 || i == 9 :: cdb[i] == 0
    ensures Be24(cdb[6], cdb[7], cdb[8]) == fwLen % 0x100_0000
  {
    Be24Split(fwLen);
    [SCMD_WRITE_BUFFER, (mode & 0x1F) as int, 0, 0, 0, 0,
     (fwLen / 0x1_0000) % 0x100, (fwLen / 0x100) % 0x100, fwLen % 0x100, 0]
  }

  lemma Be24Split(n: nat)
    ensures Be24((n / 0x1_0000) % 0x100, (n / 0x100) % 0x100, n % 0x100) == n % 0x100_0000
  {
    var a, q := n / 0x100_0000, n % 0x100_0000;
    var b2, r := q / 0x1_0000, q % 0x1_0000;
    var b1, b0 := r / 0x100, r % 0x100;
    assert n == a * 0x100_0000 + b2 * 0x1_0000 + b1 * 0x100 + b0;
    DivModByConstant(n, 0x1_0000, a * 0x100 + b2, b1 * 0x100 + b0);
    DivModByConstant(a * 0x100 + b2, 0x100, a, b2);
    DivModByConstant(n, 0x100, a * 0x1_0000 + b2 * 0x100 + b1, b0);
    DivModByConstant(a * 0x1_0000 + b2 * 0x100 + b1, 0x100, a * 0x100 + b2, b1);
  }

  lemma DivModByConstant(n: nat, d: nat, k: nat, r: nat)
    requires d == 0x100 || d == 0x1_0000
    requires n == k * d + r && r < d
    ensures n / d == k && n % d == r
  {
  }

  /** Every length the tool accepts survives the 24-bit field unchanged. */
  lemma WriteBufferLengthRoundTrip(mode: bv8, fwLen: nat)
    requires fwLen <= MAX_FW_SIZE_IN_BYTES
    ensures var cdb := WriteBufferCdb(mode, fwLen); Be24(cdb[6], cdb[7], cdb[8]) == fwLen
  {
  }

  /** The packing into a zeroed command block. */
  method PackWriteBufferCdb(mode: bv8, fwLen: nat) returns (cdb: array<byte>)
    ensures fresh(cdb) && cdb[..] == WriteBufferCdb(mode, fwLen)
  {
    cdb := new byte[CDB_GROUP1](_ => 0);
    cdb[0] := SCMD_WRITE_BUFFER;
    cdb[1] := (mode & 0x1F) as int;
    cdb[6] := (fwLen / 0x1_0000) % 0x100;
    cdb[7] := (fwLen / 0x100) % 0x100;
    cdb[8] := fwLen % 0x100;
  }

  predicate MicrocodeSequenceError(s: Sense) { s.key == KEY_ILLEGAL_REQUEST && s.asc == 0x2C && s.ascq == 0 }
  predicate InvalidFieldInCdb(s: Sense) { s.key == KEY_ILLEGAL_REQUEST && s.asc == 0x24 && s.ascq == 0 }
  predicate MicrocodeChanged(s: Sense) { s.key == KEY_UNIT_ATTENTION && s.asc == 0x3F && s.ascq == 0x01 }

  /** The verdict of uscsi_write_buffer_dmc: the parsed status, overridden
      by the sense data the drive returned after the download. */
  function WriteBufferResult(o: CmdOutcome): (ok: bool)
    ensures MicrocodeSequenceError(o.sense) || InvalidFieldInCdb(o.sense) ==> !ok
    ensures MicrocodeChanged(o.sense) ==> ok
    ensures !MicrocodeSequenceError(o.sense) && !InvalidFieldInCdb(o.sense) && !MicrocodeChanged(o.sense)
      ==> ok == ParseStatus(o)
  {
    var rc := ParseStatus(o);
    if MicrocodeSequenceError(o.sense) then false
    else if InvalidFieldInCdb(o.sense) then false
    else if MicrocodeChanged(o.sense) then true
    else rc
  }

  /** A download whose status parsed as failed still counts as successful
      when the drive reports that its microcode changed, and only then. */
  lemma WriteBufferSuccessIff(o: CmdOutcome)
    ensures WriteBufferResult(o) <==> MicrocodeChanged(o.sense) || (ParseStatus(o) && o.sense.key != KEY_ILLEGAL_REQUEST)
  {
  }

  // ---------------------------------------------------------------------
  // mem_trim_and_cpy
  // ---------------------------------------------------------------------

  /** isspace in the C locale. */
  predicate IsSpace(c: char)
  {
    c == ' ' || 9 <= c as int <= 13
  }

  /** The number of leading whitespace characters. */
  function Lead(s: string): (n: nat)
    ensures n <= |s|
    ensures forall i | 0 <= i < n :: IsSpace(s[i])
    ensures n < |s| ==> !IsSpace(s[n])
    decreases |s|
  {
    if s == [] || !IsSpace(s[0]) then 0 else 1 + Lead(s[1..])
  }

  /** The length of `s` without its trailing whitespace. */
  function TrailEnd(s: string): (m: nat)
    ensures m <= |s|
    ensures forall i | m <= i < |s| :: IsSpace(s[i])
    ensures m > 0 ==> !IsSpace(s[m - 1])
    decreases |s|
  {
    if s == [] || !IsSpace(s[|s| - 1]) then |s| else TrailEnd(s[..|s| - 1])
  }

  /** `s` without leading and trailing whitespace: the one slice of `s`
      whose ends are not whitespace and outside which everything is. */
  function Trim(s: string): (r: string)
    ensures Lead(s) + |r| <= |s| && r == s[Lead(s)..Lead(s) + |r|]
    ensures forall k | 0 <= k < |s| && (k < Lead(s) || Lead(s) + |r| <= k) :: IsSpace(s[k])
    ensures r != [] ==> !IsSpace(r[0]) && !IsSpace(r[|r| - 1])
  {
    var t := s[Lead(s)..];
    t[..TrailEnd(t)]
  }

  lemma {:induction false} TrimmedNeedsNoTrim(s: string)
    requires s == [] || (!IsSpace(s[0]) && !IsSpace(s[|s| - 1]))
    ensures Trim(s) == s
  {
    if s != [] {
      assert Lead(s) == 0;
      assert s[0..] == s;
    }
  }

  /** Trimming twice is trimming once. */
  lemma TrimIdempotent(s: string)
    ensures Trim(Trim(s)) == Trim(s)
  {
    TrimmedNeedsNoTrim(Trim(s));
  }

  /** An all-blank field trims to the empty string. */
  lemma {:induction false} TrimAllSpace(s: string)
    requires forall i | 0 <= i < |s| :: IsSpace(s[i])
    ensures Trim(s) == ""
  {
  }

  /** mem_trim_and_cpy: copy the trimmed input into `out` and terminate it;
      the bytes after the terminator are left alone. */
  method MemTrimAndCpy(out: array<char>, buf: string)
    requires |Trim(buf)| < out.Length
    modifies out
    ensures out[..] == Trim(buf) + ['\0'] + old(out[|Trim(buf)| + 1..])
  {
    var start, len := 0, |buf|;
    while len != 0 && IsSpace(buf[start])
      invariant start + len == |buf| && start <= Lead(buf)
      decreases len
    {
      start, len := start + 1, len - 1;
    }
    assert start == Lead(buf);
    ghost var r := Trim(buf);
    while len != 0 && IsSpace(buf[start + len - 1])
      invariant |r| <= len && start + len <= |buf|
      decreases len
    {
      len := len - 1;
    }
    assert len == |r|;
    ghost var rest := old(out[|r| + 1..]);
    var i := 0;
    while i < len
      invariant 0 <= i <= len
      invariant out[..i] == buf[start..start + i]
      invariant out[len + 1..] == rest && out[len] == old(out[len])
    {
      out[i] := buf[start + i];
      i := i + 1;
    }
    out[len] := '\0';
    assert out[..len] == r;
    assert out[..] == out[..len] + [out[len]] + out[len + 1..];
  }

  // ---------------------------------------------------------------------
  // match_fw_image_to_model
  // ---------------------------------------------------------------------

  /** C's SIZE_MAX for a 64-bit size_t; size_t arithmetic is modulo SIZE_MAX + 1. */
  const SIZE_MAX: int := 0xffff_ffff_ffff_ffff

  /** `model` is found at offset `i` of `image`. */
  predicate MatchesAt(model: string, image: string, i: int)
  {
    0 <= i && i + |model| <= |image| && image[i..i + |model|] == model
  }

  /** `model` occurs contiguously inside `image`. */
  predicate OccursIn(model: string, image: string)
  {
    exists i | 0 <= i <= |image| :: MatchesAt(model, image, i)
  }

  /** The loop bound as written: `fw_len - model_len + 1` in size_t, which
      wraps when the model is longer than the image plus one. */
  function ScanLimitAsWritten(fwLen: uint64, modelLen: uint64): (limit: uint64)
    ensures 0 < modelLen <= fwLen + 1 ==> limit == fwLen + 1 - modelLen
  {
    (fwLen - modelLen + 1) % (SIZE_MAX + 1)
  }

  /** The wrapped bound runs the comparison off the end of a short image:
      a 3-byte image and an 8-character model give a bound of 2^64 - 4,
      which is SIZE_MAX - 3, so
      the very first window already reads 5 bytes past the image. */
  lemma ScanLimitAsWrittenOverruns()
    ensures var limit := ScanLimitAsWritten(3, 8); limit == SIZE_MAX - 3 && limit > 0 && 0 + 8 > 3
  {
  }

  /** A window of `modelLen` bytes at offset `i` lies inside the image. */
  predicate InsideImage(i: int, modelLen: nat, fwLen: nat)
  {
    0 <= i && i + modelLen <= fwLen
  }

  /** The intended bound: the number of windows of `modelLen` bytes that
      lie inside the image. */
  function ScanLimit(fwLen: nat, modelLen: nat): (limit: nat)
    ensures forall i: int :: InsideImage(i, modelLen, fwLen) <==> 0 <= i < limit
  {
    if modelLen <= fwLen then fwLen - modelLen + 1 else 0
  }

  /** The two bounds agree whenever the source's subtraction does not
      wrap. */
  lemma ScanLimitsAgree(fwLen: uint64, modelLen: uint64)
    requires 0 < modelLen <= fwLen + 1
    ensures ScanLimitAsWritten(fwLen, modelLen) == ScanLimit(fwLen, modelLen)
  {
  }

  /** match_fw_image_to_model with the intended bound: true exactly when
      the model string occurs in the image.  The model is a C string, so
      its length is what strlen gives; the image is raw bytes. */
  method MatchFwImageToModel(image: string, model: CString) returns (found: bool)
    requires |model| > 0
    ensures found <==> OccursIn(model, image)
  {
    var limit := ScanLimit(|image|, |model|);
    var i := 0;
    while i < limit
      invariant 0 <= i <= limit
      invariant forall j | 0 <= j < i :: !MatchesAt(model, image, j)
    {
      if image[i..i + |model|] == model {
        assert MatchesAt(model, image, i);
        return true;
      }
      i := i + 1;
    }
    found := false;
    assert forall j :: MatchesAt(model, image, j) ==> InsideImage(j, |model|, |image|);
  }

  // ---------------------------------------------------------------------
  // get_fw_image
  // ---------------------------------------------------------------------

  /** What the file calls report: whether fopen and fstat succeed, the
      size fstat gives, whether malloc succeeds, and the bytes fread can
      deliver. */
  datatype FwFile = FwFile(openOk: bool, statOk: bool, size: int, mallocOk: bool, data: string)

  datatype FwImage = FwImage(buf: Option<string>, len: nat)

  predicate SizeSupported(size: int)
  {
    1 <= size <= MAX_FW_SIZE_IN_BYTES
  }

  /** get_fw_image: an image only for a file of 1 to 16777215 bytes that
      is read in full; otherwise no buffer and a zero length. */
  function GetFwImage(f: FwFile): (r: FwImage)
    ensures r.buf.Some? <==> f.openOk && f.statOk && SizeSupported(f.size) && f.mallocOk && |f.data| >= f.size
    ensures r.buf.None? ==> r.len == 0
    ensures r.buf.Some? ==> r.len == f.size && r.buf.value == f.data[..f.size]
    ensures r.len <= MAX_FW_SIZE_IN_BYTES
  {
    if !f.openOk || !f.statOk || !SizeSupported(f.size) || !f.mallocOk then FwImage(None, 0)
    else if |f.data| < f.size then FwImage(None, 0)
    else FwImage(Some(f.data[..f.size]), f.size)
  }

  // ---------------------------------------------------------------------
  // set_disk_inuse: the whole-disk name
  // ---------------------------------------------------------------------

  /** The index of the last 'd', if any. */
  function LastD(s: string): (r: Option<nat>)
    ensures r.None? <==> 'd' !in s
    ensures r.Some? ==> r.value < |s| && s[r.value] == 'd' && 'd' !in s[r.value + 1..]
    decreases |s|
  {
    if s == [] then None
    else if s[|s| - 1] == 'd' then Some(|s| - 1)
    else
      var r := LastD(s[..|s| - 1]);
      assert s[..|s| - 1] + [s[|s| - 1]] == s;
      assert r.Some? ==> s[r.value + 1..] == s[..|s| - 1][r.value + 1..] + [s[|s| - 1]];
      r
  }

  /** The end of the run of digits starting at `i`. */
  function DigitsEnd(s: string, i: nat): (j: nat)
    requires i <= |s|
    ensures i <= j <= |s|
    ensures forall k | i <= k < j :: IsDigit(s[k])
    ensures j < |s| ==> !IsDigit(s[j])
    decreases |s| - i
  {
    if i < |s| && IsDigit(s[i]) then DigitsEnd(s, i + 1) else i
  }

  /** The name cut just after the digits that follow its last 'd'
      (c#t#d#s# becomes c#t#d#); unchanged without a 'd'.  `dev` is the
      device path with its "/dev/rdsk/" prefix already skipped
      (CTD_START_IN_PATH), so the 'd's of that prefix are never seen. */
  function WholeDiskName(dev: string): (r: string)
    ensures 'd' !in dev ==> r == dev
    ensures 'd' in dev ==> r == dev[..DigitsEnd(dev, LastD(dev).value + 1)]
  {
    match LastD(dev)
    case None => dev
    case Some(p) => dev[..DigitsEnd(dev, p + 1)]
  }

  /** A whole-disk name is its own whole-disk name. */
  lemma WholeDiskNameIdempotent(dev: string)
    ensures WholeDiskName(WholeDiskName(dev)) == WholeDiskName(dev)
  {
    var r := WholeDiskName(dev);
    if 'd' in dev {
      var p := LastD(dev).value;
      var j := DigitsEnd(dev, p + 1);
      assert r[p] == 'd';
      assert 'd' !in r[p + 1..] by {
        forall k | p + 1 <= k < |r| ensures r[k] != 'd' {
          assert IsDigit(dev[k]);
        }
      }
      LastDUnique(r, p);
      DigitsEndPrefix(dev, p + 1, j);
    }
  }

  /** The last 'd' is the one with no 'd' after it. */
  lemma {:induction false} LastDUnique(s: string, p: nat)
    requires p < |s| && s[p] == 'd' && 'd' !in s[p + 1..]
    ensures LastD(s) == Some(p)
    decreases |s|
  {
    var last := |s| - 1;
    if p < last {
      assert s[last] == s[p + 1..][last - p - 1];
      assert s[..last][p + 1..] == s[p + 1..last];
      assert s[p + 1..] == s[p + 1..last] + [s[last]];
      LastDUnique(s[..last], p);
    }
  }

  lemma {:induction false} DigitsEndPrefix(s: string, i: nat, j: nat)
    requires i <= |s| && i <= j == DigitsEnd(s, i)
    ensures DigitsEnd(s[..j], i) == j
    decreases j - i
  {
    if i < j {
      DigitsEndPrefix(s, i + 1, j);
    }
  }

  /** The in-place truncation: `dev` holds a NUL-terminated name of length
      `n`; the terminator is moved to just after the unit number. */
  method TruncateToWholeDisk(dev: array<char>, n: nat) returns (len: nat)
    requires n < dev.Length && dev[n] == '\0' && '\0' !in dev[..n]
    modifies dev
    ensures len <= n && dev[..len] == WholeDiskName(old(dev[..n]))
    ensures dev[..] == old(dev[..])[len := '\0']
  {
    ghost var s := dev[..n];
    var p := n;
    while p > 0 && dev[p - 1] != 'd'
      invariant 0 <= p <= n
      invariant forall k | p <= k < n :: s[k] != 'd'
    {
      p := p - 1;
    }
    if p == 0 {
      assert 'd' !in s;
      return n;
    }
    assert 'd' !in s[p..];
    LastDUnique(s, p - 1);
    var c := p;
    while c < n && IsDigit(dev[c])
      invariant p <= c <= n
      invariant DigitsEnd(s, p) == DigitsEnd(s, c)
    {
      c := c + 1;
    }
    dev[c] := '\0';
    len := c;
    assert dev[..len] == s[..len];
  }

  // ---------------------------------------------------------------------
  // has_bad_info
  // ---------------------------------------------------------------------

  /** A disk is skipped when it has no instance (-1) or incomplete
      information (1). */
  function HasBadInfo(badInfo: int): (skip: bool)
    ensures skip <==> badInfo == -1 || badInfo == 1
  {
    if badInfo == -1 then true else badInfo == 1
  }

  // ---------------------------------------------------------------------
  // main: command-line validation
  // ---------------------------------------------------------------------

  const MAXPATHLEN: nat := 1024
  const INQ_MODEL_LEN: nat := 17
  const DEFAULT_WAIT: int := 5
  const MAX_WAIT: int := 300

  /** One option as getopt("d:p:hilm:vw:") returns it. `-p` carries what
      the file calls report, `-w` the value atoi gives for its argument. */
  datatype Opt =
    | OptD(disk: string)
    | OptP(path: string, file: FwFile)
    | OptH | OptI | OptL
    | OptM(model: string)
    | OptV
    | OptW(wait: int)
    | OptBad   // ':' or '?'

  /** Why usage() was called; it always exits with status 1. */
  datatype UsageReason =
    | HelpRequested | DiskNameTooLong | FwPathTooLong | FwUnusable
    | ModelTooLong | WaitOutOfRange | BadOption | UnexpectedArgument
    | FwWithoutTarget | TargetWithoutFw | DiskAndModel | OptionNeedsFw

  datatype Settings = Settings(
    list: bool, disk: Option<string>, model: Option<string>, fw: Option<FwImage>,
    ignoreMismatch: bool, userWait: bool, wait: int, verbose: bool)

  datatype Scan = Scanning(settings: Settings) | Stopped(reason: UsageReason)

  datatype Outcome = NotRoot | Usage(reason: UsageReason) | Proceed(settings: Settings)

  /** With no arguments, or `-v` alone, the tool lists the disks. */
  function InitialSettings(args: seq<string>): Settings
  {
    Settings(args == [] || args == ["-v"], None, None, None, false, false, DEFAULT_WAIT, false)
  }

  /** One turn of the getopt loop. */
  function ScanOpt(st: Settings, o: Opt): Scan
  {
    match o
    case OptD(d) => if |d| < MAXPATHLEN then Scanning(st.(disk := Some(d))) else Stopped(DiskNameTooLong)
    case OptP(path, f) =>
      if |path| >= MAXPATHLEN then Stopped(FwPathTooLong)
      else
        var img := GetFwImage(f);
        if img.buf.None? then Stopped(FwUnusable) else Scanning(st.(fw := Some(img)))
    case OptH => Stopped(HelpRequested)
    case OptI => Scanning(st.(ignoreMismatch := true))
    case OptL => Scanning(st.(list := true))
    case OptM(m) => if |m| < INQ_MODEL_LEN then Scanning(st.(model := Some(m))) else Stopped(ModelTooLong)
    case OptV => Scanning(st.(verbose := true))
    case OptW(w) => if w < 0 || w > MAX_WAIT then Stopped(WaitOutOfRange) else Scanning(st.(wait := w, userWait := true))
    case OptBad => Stopped(BadOption)
  }

  function ScanFrom(s: Scan, opts: seq<Opt>): Scan
    decreases |opts|
  {
    if opts == [] || s.Stopped? then s else ScanFrom(ScanOpt(s.settings, opts[0]), opts[1..])
  }

  /** The checks after the getopt loop, in the source's order. */
  function CrossCheck(st: Settings, operands: seq<string>): Outcome
  {
    if operands != [] then Usage(UnexpectedArgument)
    else if st.fw.Some? && st.disk.None? && st.model.None? then Usage(FwWithoutTarget)
    else if st.fw.None? && (st.disk.Some? || st.model.Some?) then Usage(TargetWithoutFw)
    else if st.model.Some? && st.disk.Some? then Usage(DiskAndModel)
    else if (st.ignoreMismatch || st.userWait) && st.fw.None? then Usage(OptionNeedsFw)
    else Proceed(st)
  }

  /** main up to the device-tree walk. */
  function CommandLine(euid: nat, args: seq<string>, opts: seq<Opt>, operands: seq<string>): Outcome
  {
    if euid > 1 then NotRoot
    else
      match ScanFrom(Scanning(InitialSettings(args)), opts)
      case Stopped(why) => Usage(why)
      case Scanning(st) => CrossCheck(st, operands)
  }

  /** The getopt loop of main. */
  method ValidateCommandLine(euid: nat, args: seq<string>, opts: seq<Opt>, operands: seq<string>)
    returns (o: Outcome)
    ensures o == CommandLine(euid, args, opts, operands)
  {
    if euid > 1 {
      return NotRoot;
    }
    var st := InitialSettings(args);
    var i := 0;
    while i < |opts|
      invariant 0 <= i <= |opts|
      invariant ScanFrom(Scanning(InitialSettings(args)), opts) == ScanFrom(Scanning(st), opts[i..])
    {
      assert opts[i..][0] == opts[i] && opts[i..][1..] == opts[i + 1..];
      var next := ScanOpt(st, opts[i]);
      if next.Stopped? {
        assert ScanFrom(next, opts[i + 1..]) == next;
        return Usage(next.reason);
      }
      st := next.settings;
      i := i + 1;
    }
    o := CrossCheck(st, operands);
  }

  /** What every scan preserves: a wait in range, a user wait only with
      an explicit `-w`, names within their buffers, a usable image. */
  predicate WellScanned(st: Settings)
  {
    && 0 <= st.wait <= MAX_WAIT
    && (st.disk.Some? ==> |st.disk.value| < MAXPATHLEN)
    && (st.model.Some? ==> |st.model.value| < INQ_MODEL_LEN)
    && (st.fw.Some? ==> st.fw.value.buf.Some? && SizeSupported(st.fw.value.len))
  }

  lemma ScanOptKeepsWellScanned(st: Settings, o: Opt)
    requires WellScanned(st)
    ensures var r := ScanOpt(st, o); r.Scanning? ==> WellScanned(r.settings)
  {
    if o.OptP? {
      var img := GetFwImage(o.file);
      assert img.buf.Some? ==> SizeSupported(img.len);
    }
  }

  lemma {:induction false} ScanKeepsWellScanned(s: Scan, opts: seq<Opt>)
    requires s.Scanning? ==> WellScanned(s.settings)
    ensures var r := ScanFrom(s, opts); r.Scanning? ==> WellScanned(r.settings)
    decreases |opts|
  {
    if opts != [] && s.Scanning? {
      ScanOptKeepsWellScanned(s.settings, opts[0]);
      ScanKeepsWellScanned(ScanOpt(s.settings, opts[0]), opts[1..]);
    }
  }

  /** A `-w` outside 0..300 anywhere on the command line means usage. */
  lemma {:induction false} WaitOutOfRangeRejected(s: Scan, opts: seq<Opt>, k: nat)
    requires k < |opts| && opts[k].OptW? && (opts[k].wait < 0 || opts[k].wait > MAX_WAIT)
    ensures ScanFrom(s, opts).Stopped?
    decreases |opts|
  {
    if s.Scanning? && k > 0 {
      WaitOutOfRangeRejected(ScanOpt(s.settings, opts[0]), opts[1..], k - 1);
    } else if s.Scanning? {
      StoppedStaysStopped(ScanOpt(s.settings, opts[0]), opts[1..]);
    }
  }

  lemma {:induction false} StoppedStaysStopped(s: Scan, opts: seq<Opt>)
    requires s.Stopped?
    ensures ScanFrom(s, opts) == s
  {
  }

  /** A command line the tool goes on with satisfies every rule of main:
      an image iff a disk or a model, never both, `-i` and `-w` only with
      an image, a wait in range and no stray operands. */
  lemma AcceptedCommandLine(euid: nat, args: seq<string>, opts: seq<Opt>, operands: seq<string>)
    requires CommandLine(euid, args, opts, operands).Proceed?
    ensures var st := CommandLine(euid, args, opts, operands).settings;
      && euid <= 1 && operands == []
      && (st.fw.Some? <==> st.disk.Some? || st.model.Some?)
      && !(st.disk.Some? && st.model.Some?)
      && (st.ignoreMismatch || st.userWait ==> st.fw.Some?)
      && WellScanned(st)
  {
    ScanKeepsWellScanned(Scanning(InitialSettings(args)), opts);
  }

  /** With no options at all the tool only lists the disks, when its
      arguments are empty or just `-v`. */
  lemma DefaultIsList(euid: nat, args: seq<string>)
    requires euid <= 1 && (args == [] || args == ["-v"])
    ensures var opts := if args == [] then [] else [OptV];
      var o := CommandLine(euid, args, opts, []);
      o.Proceed? && o.settings.list && (o.settings.verbose <==> args == ["-v"])
  {
    var st := InitialSettings(args);
    if args != [] {
      assert [OptV][1..] == [];
      assert ScanFrom(Scanning(st), [OptV]) == Scanning(st.(verbose := true));
    }
  }
}
