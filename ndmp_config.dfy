/**
 * Handlers for the NDMP CONFIG requests: each builds a reply from the
 * session and the server configuration.  All but one only read the session;
 * SET_EXT_LIST flips the session's extension-list flag, a one-way handshake.
 * The butype and SCSI handlers fill arrays in a loop and are methods here.
 */
module NdmpConfig {
  import opened Common

  /** Protocol versions. */
  const NDMPV3: nat := 3
  const NDMPV4: nat := 4

  /** Authentication types (ndmp_auth_type). */
  const NDMP_AUTH_NONE: int := 0
  const NDMP_AUTH_TEXT: int := 1
  const NDMP_AUTH_MD5: int := 2

  const MD5_CHALLENGE_SIZE: nat := 64

  /** SCSI peripheral device types. */
  const DTYPE_SEQUENTIAL: int := 0x01
  const DTYPE_CHANGER: int := 0x08

  /** Backup type attribute bits that NDMPv3 does not know about. */
  const NDMP_BUTYPE_BACKUP_FH_FILE: bv32 := 0x0200
  const NDMP_BUTYPE_BACKUP_FH_DIR: bv32 := 0x0400
  const NDMP_BUTYPE_RECOVER_FILEHIST: bv32 := 0x0800
  const NDMP_BUTYPE_RECOVER_FH_FILE: bv32 := 0x1000
  const NDMP_BUTYPE_RECOVER_FH_DIR: bv32 := 0x2000

  const V4_ONLY_ATTRS: bv32 :=
    NDMP_BUTYPE_BACKUP_FH_FILE | NDMP_BUTYPE_BACKUP_FH_DIR |
    NDMP_BUTYPE_RECOVER_FILEHIST | NDMP_BUTYPE_RECOVER_FH_FILE |
    NDMP_BUTYPE_RECOVER_FH_DIR

  /** The reply error codes these handlers produce. */
  datatype NdmpError =
    | NoErr
    | IllegalArgs
    | NoMem
    | VersionNotSupported
    | ExtDandnIllegal

  datatype AddrType = AddrTcp | AddrLocal | AddrIpc

  /** A name/value pair of an environment or capability list. */
  datatype Pval = Pval(name: string, value: string)

  // ---------------------------------------------------------------------
  // CONFIG_GET_AUTH_ATTR
  // ---------------------------------------------------------------------

  datatype AuthAttrReply = AuthAttrReply(error: NdmpError, authType: int, challenge: seq<byte>)

  function Zeros(n: nat): (z: seq<byte>)
    ensures |z| == n && forall i | 0 <= i < n :: z[i] == 0
  {
    if n == 0 then [] else Zeros(n - 1) + [0]
  }

  /**
   * The reply echoes the requested type; MD5 carries the session's challenge,
   * TEXT nothing, and every other type (NONE included) is refused.  The reply
   * starts zeroed, so the challenge field stays zero except for MD5.
   */
  function GetAuthAttr(authType: int, sessionChallenge: seq<byte>): (r: AuthAttrReply)
    requires |sessionChallenge| == MD5_CHALLENGE_SIZE
    ensures r.authType == authType
    ensures r.error == NoErr <==> authType == NDMP_AUTH_TEXT || authType == NDMP_AUTH_MD5
    ensures r.error != NoErr ==> r.error == IllegalArgs
    ensures authType == NDMP_AUTH_MD5 ==> r.challenge == sessionChallenge
    ensures authType != NDMP_AUTH_MD5 ==> r.challenge == Zeros(MD5_CHALLENGE_SIZE)
  {
    var zero := Zeros(MD5_CHALLENGE_SIZE);
    if authType == NDMP_AUTH_TEXT then AuthAttrReply(NoErr, authType, zero)
    else if authType == NDMP_AUTH_MD5 then AuthAttrReply(NoErr, authType, sessionChallenge)
    else AuthAttrReply(IllegalArgs, authType, zero)
  }

  // ---------------------------------------------------------------------
  // CONFIG_GET_BUTYPE_INFO
  // ---------------------------------------------------------------------

  /** The attribute word reported for a backup type under a protocol version. */
  function ButypeAttrs(version: nat, attrs: bv32): bv32
  {
    if version == NDMPV3 then attrs & !V4_ONLY_ATTRS else attrs
  }

  /**
   * Under NDMPv3 exactly the five file-history bits are cleared and every
   * other bit is reported as the backup type gives it; other versions see the
   * attributes unchanged.
   */
  lemma ButypeAttrsMasking(version: nat, attrs: bv32)
    ensures version == NDMPV3 ==>
      ButypeAttrs(version, attrs) & V4_ONLY_ATTRS == 0 &&
      ButypeAttrs(version, attrs) & !V4_ONLY_ATTRS == attrs & !V4_ONLY_ATTRS
    ensures version != NDMPV3 ==> ButypeAttrs(version, attrs) == attrs
  {
  }

  datatype ButypeInfo = ButypeInfo(name: string, attrs: bv32, defaultEnv: seq<Pval>)

  /**
   * One entry per configured backup type, in order: its name, its attributes
   * as the version allows, and its default environment.  When the info array
   * cannot be allocated the reply carries NO_MEM and no entries.
   */
  method GetButypeInfo(types: seq<string>, version: nat,
                       getEnv: (string, nat) -> seq<Pval>, getAttrs: string -> bv32,
                       mallocOk: bool)
    returns (error: NdmpError, info: seq<ButypeInfo>)
    ensures !mallocOk ==> error == NoMem && info == []
    ensures mallocOk ==> error == NoErr && |info| == |types|
    ensures mallocOk ==> forall i | 0 <= i < |types| ::
      info[i].name == types[i] &&
      info[i].attrs == ButypeAttrs(version, getAttrs(types[i])) &&
      info[i].defaultEnv == getEnv(types[i], version)
  {
    if !mallocOk {
      return NoMem, [];
    }
    var a := new ButypeInfo[|types|];
    var i := 0;
    while i < |types|
      invariant 0 <= i <= |types|
      invariant forall j | 0 <= j < i ::
        a[j] == ButypeInfo(types[j], ButypeAttrs(version, getAttrs(types[j])), getEnv(types[j], version))
    {
      var envp := getEnv(types[i], version);
      var attrs := getAttrs(types[i]);
      if version == NDMPV3 {
        attrs := attrs & !V4_ONLY_ATTRS;
      }
      a[i] := ButypeInfo(types[i], attrs, envp);
      i := i + 1;
    }
    error, info := NoErr, a[..];
  }

  // ---------------------------------------------------------------------
  // CONFIG_GET_CONNECTION_TYPE
  // ---------------------------------------------------------------------

  /**
   * TCP is always offered and comes first; LOCAL is offered iff the server
   * has local tape support; IPC never.
   */
  function ConnectionTypes(localTape: bool): (r: seq<AddrType>)
    ensures |r| == (if localTape then 2 else 1)
    ensures r[0] == AddrTcp
    ensures AddrLocal in r <==> localTape
    ensures AddrIpc !in r
  {
    if localTape then [AddrTcp, AddrLocal] else [AddrTcp]
  }

  // ---------------------------------------------------------------------
  // CONFIG_GET_SCSI_INFO / CONFIG_GET_TAPE_INFO
  // ---------------------------------------------------------------------

  /** A device on the server's SCSI device list. */
  datatype ScsiDevice = ScsiDevice(dtype: int, name: string, id: string, serial: string, wwn: string)

  /** A reported device: its model, one capability (device name, attr 0, env). */
  datatype DeviceInfo = DeviceInfo(model: string, device: string, attr: int, capability: seq<Pval>)

  /** The capability list of a device; tape drives also announce EXECUTE_CDB. */
  function Capability(d: ScsiDevice, dtype: int): seq<Pval>
  {
    [Pval("SERIAL_NUMBER", d.serial), Pval("WORLD_WIDE_NAME", d.wwn)] +
    (if dtype == DTYPE_SEQUENTIAL then [Pval("EXECUTE_CDB", "b")] else [])
  }

  function Entry(d: ScsiDevice, dtype: int): DeviceInfo
  {
    DeviceInfo(d.id, d.name, 0, Capability(d, dtype))
  }

  /** `dead(name)` holds when the device node is a dangling link (ENOENT). */
  predicate Reported(d: ScsiDevice, dtype: int, dead: string -> bool)
  {
    d.dtype == dtype && !dead(d.name)
  }

  /** The devices of the requested type that are not dead links, in list order. */
  function ScsiReport(devices: seq<ScsiDevice>, dtype: int, dead: string -> bool): seq<DeviceInfo>
  {
    if devices == [] then []
    else
      var d := devices[|devices| - 1];
      var last := if Reported(d, dtype, dead) then [Entry(d, dtype)] else [];
      ScsiReport(devices[..|devices| - 1], dtype, dead) + last
  }

  /**
   * The handler shared by GET_SCSI_INFO (changers) and GET_TAPE_INFO (tape
   * drives).  Without local tape support, or with no devices at all, the list
   * is empty; otherwise it is the report of the devices of that type.
   */
  method CommonScsiInfo(devices: seq<ScsiDevice>, dtype: int, localTape: bool, dead: string -> bool)
    returns (info: seq<DeviceInfo>)
    ensures !localTape || |devices| == 0 ==> info == []
    ensures localTape ==> info == ScsiReport(devices, dtype, dead)
  {
    var count := |devices|;
    if !localTape || count == 0 {
      return [];
    }
    var sip := new DeviceInfo[count];
    var k := 0;
    count := 0;
    while k < |devices|
      invariant 0 <= count <= k <= |devices|
      invariant sip[..count] == ScsiReport(devices[..k], dtype, dead)
    {
      var sdp := devices[k];
      assert devices[..k + 1][..k] == devices[..k];
      if sdp.dtype != dtype || dead(sdp.name) {
        k := k + 1;
        continue;
      }
      sip[count] := Entry(sdp, dtype);
      count := count + 1;
      k := k + 1;
    }
    assert devices[..k] == devices;
    info := sip[..count];
  }

  method GetScsiInfo(devices: seq<ScsiDevice>, localTape: bool, dead: string -> bool)
    returns (info: seq<DeviceInfo>)
    ensures localTape ==> info == ScsiReport(devices, DTYPE_CHANGER, dead)
    ensures !localTape ==> info == []
  {
    info := CommonScsiInfo(devices, DTYPE_CHANGER, localTape, dead);
  }

  method GetTapeInfo(devices: seq<ScsiDevice>, localTape: bool, dead: string -> bool)
    returns (info: seq<DeviceInfo>)
    ensures localTape ==> info == ScsiReport(devices, DTYPE_SEQUENTIAL, dead)
    ensures !localTape ==> info == []
  {
    info := CommonScsiInfo(devices, DTYPE_SEQUENTIAL, localTape, dead);
  }

  /**
   * Every reported entry comes from a live device of the requested type, and
   * its capability list has three entries for tape drives and two otherwise.
   */
  lemma {:induction false} ScsiReportSound(devices: seq<ScsiDevice>, dtype: int, dead: string -> bool)
    ensures forall e | e in ScsiReport(devices, dtype, dead) ::
      (exists j | 0 <= j < |devices| :: Reported(devices[j], dtype, dead) && e == Entry(devices[j], dtype))
    ensures forall e | e in ScsiReport(devices, dtype, dead) ::
      e.attr == 0 && |e.capability| == (if dtype == DTYPE_SEQUENTIAL then 3 else 2)
  {
    if devices != [] {
      var init := devices[..|devices| - 1];
      ScsiReportSound(init, dtype, dead);
      forall e | e in ScsiReport(devices, dtype, dead)
        ensures exists j | 0 <= j < |devices| :: Reported(devices[j], dtype, dead) && e == Entry(devices[j], dtype)
      {
        if e in ScsiReport(init, dtype, dead) {
          var j :| 0 <= j < |init| && Reported(init[j], dtype, dead) && e == Entry(init[j], dtype);
          assert devices[j] == init[j];
        } else {
          assert Reported(devices[|devices| - 1], dtype, dead);
        }
      }
    }
  }

  /** Conversely every live device of the requested type is reported. */
  lemma {:induction false} ScsiReportComplete(devices: seq<ScsiDevice>, dtype: int, dead: string -> bool, j: int)
    requires 0 <= j < |devices| && Reported(devices[j], dtype, dead)
    ensures Entry(devices[j], dtype) in ScsiReport(devices, dtype, dead)
  {
    var init := devices[..|devices| - 1];
    if j < |devices| - 1 {
      assert init[j] == devices[j];
      ScsiReportComplete(init, dtype, dead, j);
    }
  }

  /** Only the requested type is reported: the other type's devices never appear. */
  lemma {:induction false} ScsiReportLength(devices: seq<ScsiDevice>, dtype: int, dead: string -> bool)
    ensures |ScsiReport(devices, dtype, dead)| <= |devices|
    ensures (forall j | 0 <= j < |devices| :: devices[j].dtype != dtype) ==>
      ScsiReport(devices, dtype, dead) == []
  {
    if devices != [] {
      var init := devices[..|devices| - 1];
      ScsiReportLength(init, dtype, dead);
      if forall j | 0 <= j < |devices| :: devices[j].dtype != dtype {
        assert forall j | 0 <= j < |init| :: init[j] == devices[j];
      }
    }
  }

  // ---------------------------------------------------------------------
  // CONFIG_GET_SERVER_INFO
  // ---------------------------------------------------------------------

  datatype ServerConf = ServerConf(vendor: string, product: string, revision: string)

  datatype ServerInfoReply = ServerInfoReply(vendor: string, product: string, revision: string,
                                             authTypes: seq<int>)

  /**
   * Vendor, product and revision are disclosed to any NDMPv3 session and to
   * an NDMPv4 session only after it has authenticated; otherwise they are
   * empty.  The supported authentication types are always TEXT then MD5.
   */
  function GetServerInfo(conf: ServerConf, authorized: bool, version: nat): (r: ServerInfoReply)
    ensures authorized || version != NDMPV4 ==>
      r.vendor == conf.vendor && r.product == conf.product && r.revision == conf.revision
    ensures !(authorized || version != NDMPV4) ==> r.vendor == r.product == r.revision == ""
    ensures r.authTypes == [NDMP_AUTH_TEXT, NDMP_AUTH_MD5]
  {
    var authTypes := [NDMP_AUTH_TEXT, NDMP_AUTH_MD5];
    if authorized || version != NDMPV4 then
      ServerInfoReply(conf.vendor, conf.product, conf.revision, authTypes)
    else
      ServerInfoReply("", "", "", authTypes)
  }

  /** An unauthenticated NDMPv4 client learns nothing about the configuration. */
  lemma ServerInfoHidesConf(c1: ServerConf, c2: ServerConf, version: nat)
    requires version == NDMPV4
    ensures GetServerInfo(c1, false, version) == GetServerInfo(c2, false, version)
  {
  }

  // ---------------------------------------------------------------------
  // CONFIG_GET_EXT_LIST / CONFIG_SET_EXT_LIST (NDMPv4)
  // ---------------------------------------------------------------------

  /** The reply to SET_EXT_LIST given whether the list was already set. */
  function SetExtListError(alreadySet: bool): NdmpError
  {
    if alreadySet then ExtDandnIllegal else VersionNotSupported
  }

  /** The replies to n successive SET_EXT_LIST requests from a starting flag. */
  function SetExtListReplies(alreadySet: bool, n: nat): (r: seq<NdmpError>)
    ensures |r| == n
    decreases n
  {
    if n == 0 then [] else [SetExtListError(alreadySet)] + SetExtListReplies(true, n - 1)
  }

  /**
   * The handshake: on a fresh session only the first SET_EXT_LIST answers
   * VERSION_NOT_SUPPORTED (no extension is supported) and every later one
   * answers EXT_DANDN_ILLEGAL.
   */
  lemma {:induction false} SetExtListHandshake(alreadySet: bool, n: nat, i: nat)
    requires i < n
    ensures SetExtListReplies(alreadySet, n)[i] == VersionNotSupported <==> i == 0 && !alreadySet
    ensures SetExtListReplies(alreadySet, n)[i] != VersionNotSupported ==>
      SetExtListReplies(alreadySet, n)[i] == ExtDandnIllegal
    decreases n
  {
    if i > 0 {
      SetExtListHandshake(true, n - 1, i - 1);
    }
  }

  /** The part of the session state these handlers use. */
  class Session {
    var setExtList: bool

    constructor()
      ensures !setExtList
    {
      setExtList := false;
    }

    /** Marks the extension list as negotiated; the flag, once set, stays set. */
    method SetExtListV4() returns (error: NdmpError)
      modifies this
      ensures setExtList
      ensures error == SetExtListError(old(setExtList))
    {
      if setExtList {
        error := ExtDandnIllegal;
      } else {
        setExtList := true;
        error := VersionNotSupported;
      }
    }

    /** No extension is supported; asking before SET_EXT_LIST is an error. */
    method GetExtListV4() returns (error: NdmpError, classList: seq<string>)
      ensures error == ExtDandnIllegal <==> !setExtList
      ensures error != ExtDandnIllegal ==> error == NoErr
      ensures classList == []
    {
      error := NoErr;
      if !setExtList {
        error := ExtDandnIllegal;
      }
      classList := [];
    }
  }
}
