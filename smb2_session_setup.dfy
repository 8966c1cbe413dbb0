/** The SMB2 SESSION_SETUP handler of the kernel SMB server
    (usr/src/uts/common/fs/smbsrv/smb2_session_setup.c): decode the fixed
    part of the request (MS-SMB2 section 2.2.5), skip the padding before
    the security buffer, hand the buffer to the authenticator, turn its
    verdict into the session flags and the reply's buffer length, and
    encode the reply (MS-SMB2 section 2.2.6).

    The message buffers are byte sequences with a read position; all
    integers travel little-endian. */
module Smb2SessionSetup {
  import opened Common

  // ---------------------------------------------------------------------
  // Little-endian integers
  // ---------------------------------------------------------------------

  function Pow256(n: nat): (p: nat)
    ensures p >= 1
  {
    if n == 0 then 1 else 256 * Pow256(n - 1)
  }

  /** `x` as `n` little-endian bytes (the low `n` bytes of it). */
  function LeBytes(x: nat, n: nat): (b: seq<byte>)
    ensures |b| == n
  {
    if n == 0 then [] else [x % 256] + LeBytes(x / 256, n - 1)
  }

  /** The number `b` holds, least significant byte first. */
  function LeValue(b: seq<byte>): (v: nat)
    ensures v < Pow256(|b|)
  {
    if b == [] then 0 else b[0] + 256 * LeValue(b[1..])
  }

  lemma {:induction false} LeRoundTrip(x: nat, n: nat)
    requires x < Pow256(n)
    ensures LeValue(LeBytes(x, n)) == x
  {
    if n > 0 {
      var b := LeBytes(x, n);
      assert b[1..] == LeBytes(x / 256, n - 1);
      LeRoundTrip(x / 256, n - 1);
    }
  }

  /** A two-byte field: low byte first. */
  lemma LeValue2(b: seq<byte>)
    requires |b| == 2
    ensures LeValue(b) == b[0] as int + 256 * b[1] as int
  {
    assert b[1..][1..] == [];
  }

  // ---------------------------------------------------------------------
  // The request's fixed part
  // ---------------------------------------------------------------------

  /** The fixed part of SMB2 SESSION_SETUP Request, in wire order. */
  datatype SetupRequest = SetupRequest(
    structureSize: uint16, flags: byte, securityMode: byte, capabilities: uint32,
    channel: uint32, secBufOffset: uint16, secBufLength: uint16, prevSessionId: uint64)

  /** Its size: "wbbllwwq" is 2 + 1 + 1 + 4 + 4 + 2 + 2 + 8 bytes. */
  const FIXED_SIZE: nat := 24

  function EncodeFixed(r: SetupRequest): (b: seq<byte>)
    ensures |b| == FIXED_SIZE
  {
    LeBytes(r.structureSize, 2) + LeBytes(r.flags, 1) + LeBytes(r.securityMode, 1)
    + LeBytes(r.capabilities, 4) + LeBytes(r.channel, 4) + LeBytes(r.secBufOffset, 2)
    + LeBytes(r.secBufLength, 2) + LeBytes(r.prevSessionId, 8)
  }

  /** The decoding of "wbbllwwq" from the first 24 bytes of `b`. */
  function DecodeFixed(b: seq<byte>): (r: SetupRequest)
    requires |b| >= FIXED_SIZE
    ensures r.structureSize == b[0] as int + 256 * b[1] as int
    ensures r.flags == b[2] && r.securityMode == b[3]
    ensures r.secBufOffset == b[12] as int + 256 * b[13] as int
    ensures r.secBufLength == b[14] as int + 256 * b[15] as int
  {
    LeValue2(b[0..2]);
    LeValue2(b[12..14]);
    LeValue2(b[14..16]);
    assert b[2..3][1..] == [] && b[3..4][1..] == [];
    SetupRequest(
      LeValue(b[0..2]), LeValue(b[2..3]), LeValue(b[3..4]), LeValue(b[4..8]),
      LeValue(b[8..12]), LeValue(b[12..14]), LeValue(b[14..16]), LeValue(b[16..24]))
  }

  /** Decoding looks at the first 24 bytes only. */
  lemma DecodeFixedPrefix(b: seq<byte>)
    requires |b| >= FIXED_SIZE
    ensures DecodeFixed(b) == DecodeFixed(b[..FIXED_SIZE])
  {
    var p := b[..FIXED_SIZE];
    assert b[0..2] == p[0..2] && b[2..3] == p[2..3] && b[3..4] == p[3..4] && b[4..8] == p[4..8];
    assert b[8..12] == p[8..12] && b[12..14] == p[12..14] && b[14..16] == p[14..16] && b[16..24] == p[16..24];
  }

  /** Decoding reads back every field that was encoded, whatever follows
      the fixed part. */
  lemma FixedRoundTrip(r: SetupRequest, rest: seq<byte>)
    ensures DecodeFixed(EncodeFixed(r) + rest) == r
  {
    var b := EncodeFixed(r) + rest;
    assert b[0..2] == LeBytes(r.structureSize, 2);
    assert b[2..3] == LeBytes(r.flags, 1);
    assert b[3..4] == LeBytes(r.securityMode, 1);
    assert b[4..8] == LeBytes(r.capabilities, 4);
    assert b[8..12] == LeBytes(r.channel, 4);
    assert b[12..14] == LeBytes(r.secBufOffset, 2);
    assert b[14..16] == LeBytes(r.secBufLength, 2);
    assert b[16..24] == LeBytes(r.prevSessionId, 8);
    LeRoundTrip(r.structureSize, 2);
    LeRoundTrip(r.flags, 1);
    LeRoundTrip(r.securityMode, 1);
    LeRoundTrip(r.capabilities, 4);
    LeRoundTrip(r.channel, 4);
    LeRoundTrip(r.secBufOffset, 2);
    LeRoundTrip(r.secBufLength, 2);
    LeRoundTrip(r.prevSessionId, 8);
  }

  /** The padding between the fixed part and the security buffer:
      SecurityBufferOffset counts from the start of the SMB2 header. */
  function PaddingSkip(secBufOffset: uint16, cmdHdr: nat, chainOffset: nat): (skip: int)
    ensures skip > 0 <==> chainOffset < secBufOffset + cmdHdr
    ensures chainOffset + skip == secBufOffset + cmdHdr
  {
    secBufOffset + cmdHdr - chainOffset
  }

  // ---------------------------------------------------------------------
  // From the authentication verdict to the reply
  // ---------------------------------------------------------------------

  const NT_STATUS_SUCCESS: uint32 := 0
  const NT_STATUS_MORE_PROCESSING_REQUIRED: uint32 := 0xC000_0016

  const SMB2_HDR_SIZE: nat := 64
  const SMB2_SESSION_FLAG_IS_GUEST: bv16 := 0x0001
  const SMB2_SESSION_FLAG_IS_NULL: bv16 := 0x0002
  const REPLY_STRUCTURE_SIZE: uint16 := 9

  /** A security blob: its length travels in a 16-bit field. */
  type SecBlob = b: seq<byte> | |b| < 0x1_0000

  /** What smb_authenticate_ext reports: the status, the user's guest and
      anonymous flags (meaningful on success), and the output blob. */
  datatype AuthResult = AuthResult(status: uint32, guest: bool, anon: bool, outBlob: SecBlob)

  /** The reply fields the verdict decides, and the status recorded for
      the SMB2 header (None: left alone). */
  datatype Verdict = Verdict(sessionFlags: bv16, secBufLength: uint16, recorded: Option<uint32>)

  function VerdictOf(a: AuthResult): (v: Verdict)
    ensures v.sessionFlags & SMB2_SESSION_FLAG_IS_GUEST != 0 <==> a.status == NT_STATUS_SUCCESS && a.guest
    ensures v.sessionFlags & SMB2_SESSION_FLAG_IS_NULL != 0 <==> a.status == NT_STATUS_SUCCESS && a.anon
    ensures v.sessionFlags & !(SMB2_SESSION_FLAG_IS_GUEST | SMB2_SESSION_FLAG_IS_NULL) == 0
    ensures a.status == NT_STATUS_SUCCESS <==> v.recorded.None?
    ensures v.recorded.Some? ==> v.recorded.value == a.status
    ensures v.secBufLength == (if a.status == NT_STATUS_SUCCESS || a.status == NT_STATUS_MORE_PROCESSING_REQUIRED
                               then |a.outBlob| else 0)
  {
    if a.status == NT_STATUS_SUCCESS then
      var g: bv16 := if a.guest then SMB2_SESSION_FLAG_IS_GUEST else 0;
      var n: bv16 := if a.anon then SMB2_SESSION_FLAG_IS_NULL else 0;
      Verdict(g | n, |a.outBlob|, None)
    else if a.status == NT_STATUS_MORE_PROCESSING_REQUIRED then
      Verdict(0, |a.outBlob|, Some(a.status))
    else
      Verdict(0, 0, Some(a.status))
  }

  /** The SMB2 SESSION_SETUP Response as encoded by "wwww#c". */
  datatype SetupReply = SetupReply(structureSize: uint16, sessionFlags: uint16, secBufOffset: uint16, blob: SecBlob)

  function EncodeReply(r: SetupReply): (b: seq<byte>)
    ensures |b| == 8 + |r.blob|
    ensures b[0] as int + 256 * b[1] as int == r.structureSize
    ensures b[6] as int + 256 * b[7] as int == |r.blob| && b[8..] == r.blob
  {
    LeRoundTrip(r.structureSize, 2);
    LeRoundTrip(|r.blob|, 2);
    LeValue2(LeBytes(r.structureSize, 2));
    LeValue2(LeBytes(|r.blob|, 2));
    LeBytes(r.structureSize, 2) + LeBytes(r.sessionFlags, 2) + LeBytes(r.secBufOffset, 2)
    + LeBytes(|r.blob|, 2) + r.blob
  }

  function DecodeReply(b: seq<byte>): (r: Option<SetupReply>)
  {
    if |b| < 8 || |b| - 8 != LeValue(b[6..8]) then None
    else Some(SetupReply(LeValue(b[0..2]), LeValue(b[2..4]), LeValue(b[4..6]), b[8..]))
  }

  lemma ReplyRoundTrip(r: SetupReply)
    ensures DecodeReply(EncodeReply(r)) == Some(r)
  {
    var b := EncodeReply(r);
    assert b[0..2] == LeBytes(r.structureSize, 2);
    assert b[2..4] == LeBytes(r.sessionFlags, 2);
    assert b[4..6] == LeBytes(r.secBufOffset, 2);
    assert b[6..8] == LeBytes(|r.blob|, 2);
    assert b[8..] == r.blob;
    LeRoundTrip(r.structureSize, 2);
    LeRoundTrip(r.sessionFlags, 2);
    LeRoundTrip(r.secBufOffset, 2);
    LeRoundTrip(|r.blob|, 2);
  }

  /** The reply the handler builds for a verdict: structure size 9, the
      security buffer right after the 64-byte header and 8 fixed bytes,
      and as many blob bytes as the length field says. */
  function ReplyFor(a: AuthResult): (r: SetupReply)
    ensures r.structureSize == REPLY_STRUCTURE_SIZE
    ensures r.secBufOffset == SMB2_HDR_SIZE + 8
    ensures |r.blob| == VerdictOf(a).secBufLength && r.blob == a.outBlob[..|r.blob|]
    ensures r.sessionFlags == VerdictOf(a).sessionFlags as int
  {
    var v := VerdictOf(a);
    SetupReply(REPLY_STRUCTURE_SIZE, v.sessionFlags as int, SMB2_HDR_SIZE + 8, a.outBlob[..v.secBufLength])
  }

  // ---------------------------------------------------------------------
  // The handler
  // ---------------------------------------------------------------------

  datatype Sdrc = SdrcSuccess | SdrcError

  /** The parts of smb_request_t and smb_session_t the handler touches:
      the request data and its read position, the offset of this command's
      header, the session's capabilities, the security blob kept in the
      session-setup argument, the status for the reply header, and the
      reply with the room it has. */
  datatype Request = Request(
    data: seq<byte>, chainOffset: nat, cmdHdr: nat, capabilities: uint32,
    iSecBlob: seq<byte>, smb2Status: uint32, reply: seq<byte>, replyMax: nat)

  /** smb2_session_setup, as a step on the request. */
  function SessionSetupStep(s: Request, authenticate: seq<byte> -> AuthResult): (r: (Request, Sdrc))
    requires s.chainOffset <= |s.data|
  {
    if |s.data| - s.chainOffset < FIXED_SIZE then (s, SdrcError)
    else
      var fixed := FixedOf(s);
      var s1 := SkipPadding(ReadFixed(s), fixed);
      if |s1.data| - s1.chainOffset < fixed.secBufLength then (s1, SdrcError)
      else
        var s2 := ReadBlob(s1, fixed.secBufLength);
        Respond(s2, authenticate(s2.iSecBlob))
  }

  function FixedOf(s: Request): SetupRequest
    requires s.chainOffset + FIXED_SIZE <= |s.data|
  {
    DecodeFixed(s.data[s.chainOffset..])
  }

  /** Consume the fixed part; the capabilities go to the session. */
  function ReadFixed(s: Request): (r: Request)
    requires s.chainOffset + FIXED_SIZE <= |s.data|
    ensures r.chainOffset <= |r.data|
  {
    s.(capabilities := FixedOf(s).capabilities, chainOffset := s.chainOffset + FIXED_SIZE)
  }

  /** Consume the security blob into the session-setup argument. */
  function ReadBlob(s: Request, len: nat): (r: Request)
    requires s.chainOffset + len <= |s.data|
  {
    s.(iSecBlob := s.data[s.chainOffset..s.chainOffset + len], chainOffset := s.chainOffset + len)
  }

  /** Skip the padding, when there is any and the data holds it. */
  function SkipPadding(s: Request, fixed: SetupRequest): (r: Request)
    requires s.chainOffset <= |s.data|
    ensures r == s || r == s.(chainOffset := fixed.secBufOffset + s.cmdHdr)
    ensures r.chainOffset <= |r.data|
  {
    var skip := PaddingSkip(fixed.secBufOffset, s.cmdHdr, s.chainOffset);
    if skip > 0 && s.chainOffset + skip <= |s.data| then s.(chainOffset := s.chainOffset + skip) else s
  }

  /** Record the status the verdict calls for and append the reply, if
      the reply has room for it. */
  function Respond(s: Request, a: AuthResult): (r: (Request, Sdrc))
    ensures r.0.(reply := s.reply, smb2Status := s.smb2Status) == s
    ensures r.0.smb2Status == (if VerdictOf(a).recorded.Some? then VerdictOf(a).recorded.value else s.smb2Status)
    ensures r.1 == SdrcSuccess <==> |s.reply| + 8 + VerdictOf(a).secBufLength <= s.replyMax
    ensures r.0.reply == (if r.1 == SdrcSuccess then s.reply + EncodeReply(ReplyFor(a)) else s.reply)
  {
    var v := VerdictOf(a);
    var s1 := if v.recorded.Some? then s.(smb2Status := v.recorded.value) else s;
    var out := EncodeReply(ReplyFor(a));
    if |s1.reply| + |out| > s1.replyMax then (s1, SdrcError)
    else (s1.(reply := s1.reply + out), SdrcSuccess)
  }

  /** What the handler does to the request: the data and the command
      header offset stay, a request too short for the fixed part is
      refused untouched, and a handled one has its capabilities and blob
      from the request, the status the verdict calls for, and the encoded
      reply appended. */
  lemma SessionSetupEffects(s: Request, authenticate: seq<byte> -> AuthResult)
    requires s.chainOffset <= |s.data|
    ensures var r := SessionSetupStep(s, authenticate);
      && r.0.chainOffset <= |r.0.data| && r.0.data == s.data && r.0.cmdHdr == s.cmdHdr
      && (|s.data| - s.chainOffset < FIXED_SIZE ==> r == (s, SdrcError))
      && (r.1 == SdrcSuccess ==>
        var fixed := DecodeFixed(s.data[s.chainOffset..]);
        var a := authenticate(r.0.iSecBlob);
        && r.0.capabilities == fixed.capabilities
        && |r.0.iSecBlob| == fixed.secBufLength
        && (|| (r.0.chainOffset == s.chainOffset + FIXED_SIZE + fixed.secBufLength
                && r.0.iSecBlob == s.data[s.chainOffset + FIXED_SIZE..r.0.chainOffset])
            || (r.0.chainOffset == fixed.secBufOffset + s.cmdHdr + fixed.secBufLength
                && r.0.iSecBlob == s.data[fixed.secBufOffset + s.cmdHdr..r.0.chainOffset]))
        && r.0.reply == s.reply + EncodeReply(ReplyFor(a))
        && r.0.smb2Status == (if VerdictOf(a).recorded.Some? then VerdictOf(a).recorded.value else s.smb2Status))
  {
  }

  /** A request whose security buffer runs past the data is refused
      before the authenticator sees anything. */
  lemma ShortBlobRefused(s: Request, authenticate: seq<byte> -> AuthResult)
    requires s.chainOffset + FIXED_SIZE <= |s.data|
    requires DecodeFixed(s.data[s.chainOffset..]).secBufLength > |s.data| - s.chainOffset - FIXED_SIZE
    ensures SessionSetupStep(s, authenticate).1 == SdrcError
  {
  }

  /** On success the reply decodes to structure size 9, offset 72 and
      exactly the blob bytes its length field announces: the whole output
      blob when authentication succeeded or wants another round, none
      otherwise. */
  lemma SuccessfulReplyLayout(s: Request, authenticate: seq<byte> -> AuthResult)
    requires s.chainOffset <= |s.data|
    requires SessionSetupStep(s, authenticate).1 == SdrcSuccess
    ensures var r := SessionSetupStep(s, authenticate).0;
      var a := authenticate(r.iSecBlob);
      && r.reply[..|s.reply|] == s.reply
      && var rep := DecodeReply(r.reply[|s.reply|..]);
      && rep.Some?
      && rep.value.structureSize == 9
      && rep.value.secBufOffset == SMB2_HDR_SIZE + 8
      && rep.value.blob == (if a.status == NT_STATUS_SUCCESS || a.status == NT_STATUS_MORE_PROCESSING_REQUIRED
                            then a.outBlob else [])
  {
    var r := SessionSetupStep(s, authenticate).0;
    var a := authenticate(r.iSecBlob);
    assert r.reply[|s.reply|..] == EncodeReply(ReplyFor(a));
    ReplyRoundTrip(ReplyFor(a));
  }

  /** The server's view of one request. */
  class SmbRequest {
    var data: seq<byte>
    var chainOffset: nat
    var cmdHdr: nat
    var capabilities: uint32
    var iSecBlob: seq<byte>
    var smb2Status: uint32
    var reply: seq<byte>
    var replyMax: nat

    function State(): Request
      reads this
    {
      Request(data, chainOffset, cmdHdr, capabilities, iSecBlob, smb2Status, reply, replyMax)
    }

    /** Take `n` bytes of data at the read position, if there are that
        many. */
    method Take(n: nat) returns (b: Option<seq<byte>>)
      requires chainOffset <= |data|
      modifies this
      ensures chainOffset <= |data|
      ensures |old(data)| - old(chainOffset) < n ==> b.None? && State() == old(State())
      ensures |old(data)| - old(chainOffset) >= n ==>
        && b == Some(old(data)[old(chainOffset)..old(chainOffset) + n])
        && State() == old(State()).(chainOffset := old(chainOffset) + n)
    {
      if |data| - chainOffset < n {
        return None;
      }
      b := Some(data[chainOffset..chainOffset + n]);
      chainOffset := chainOffset + n;
    }

    /** Skip the padding before the security buffer. */
    method SkipToSecurityBuffer(fixed: SetupRequest)
      requires chainOffset <= |data|
      modifies this
      ensures State() == SkipPadding(old(State()), fixed)
    {
      var skip := PaddingSkip(fixed.secBufOffset, cmdHdr, chainOffset);
      if skip > 0 {
        var _ := Take(skip);
      }
    }

    /** Record the status and encode the reply. */
    method SendReply(a: AuthResult) returns (rc: Sdrc)
      modifies this
      ensures (State(), rc) == Respond(old(State()), a)
    {
      var v := VerdictOf(a);
      if v.recorded.Some? {
        smb2Status := v.recorded.value;
      }
      var out := EncodeReply(ReplyFor(a));
      if |reply| + |out| > replyMax {
        return SdrcError;
      }
      reply := reply + out;
      rc := SdrcSuccess;
    }

    /** Decode the fixed part of the request, if the data holds it. */
    method ReadFixedPart() returns (fixed: Option<SetupRequest>)
      requires chainOffset <= |data|
      modifies this
      ensures |old(data)| - old(chainOffset) < FIXED_SIZE ==> fixed.None? && State() == old(State())
      ensures |old(data)| - old(chainOffset) >= FIXED_SIZE ==>
        fixed == Some(FixedOf(old(State()))) && State() == ReadFixed(old(State()))
    {
      var raw := Take(FIXED_SIZE);
      if raw.None? {
        return None;
      }
      assert raw.value == old(data)[old(chainOffset)..][..FIXED_SIZE];
      DecodeFixedPrefix(old(data)[old(chainOffset)..]);
      fixed := Some(DecodeFixed(raw.value));
      capabilities := fixed.value.capabilities;
    }

    method SessionSetup(authenticate: seq<byte> -> AuthResult) returns (rc: Sdrc)
      requires chainOffset <= |data|
      modifies this
      ensures (State(), rc) == SessionSetupStep(old(State()), authenticate)
    {
      var fixed := ReadFixedPart();
      if fixed.None? {
        return SdrcError;
      }
      ghost var s0 := old(State());
      SkipToSecurityBuffer(fixed.value);
      ghost var s1 := State();
      assert s1 == SkipPadding(ReadFixed(s0), FixedOf(s0));
      var blob := Take(fixed.value.secBufLength);
      if blob.None? {
        return SdrcError;
      }
      iSecBlob := blob.value;
      ghost var s2 := State();
      assert s2 == ReadBlob(s1, FixedOf(s0).secBufLength);
      rc := SendReply(authenticate(iSecBlob));
      assert (State(), rc) == Respond(s2, authenticate(s2.iSecBlob));
    }
  }
}
