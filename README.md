# A verified model of seven illumos components

This project models, in Dafny, the core of seven components of the illumos
operating system and proves what each of them promises.

- **SMB domain-controller locator** (`usr/src/lib/smbsrv/libmlsvc/common/mlsvc_domain.c`).
  - The shared locator record and the three client calls that post requests to it: `smb_locate_dc`, `smb_ddiscover_refresh` and `smb_ddiscover_bad_dc`.
  - The discovery worker `smb_ddiscover_service`, with its `goto again` restart loop.
  - The discovery pipeline: DNS lookup, LSA queries, the configuration fallback and trusted-domain enumeration.
  - `DcPipeline` holds the pipeline as functions over a record of collaborators.
  - `DcLocator` holds the record, as the class `Locator` whose every method performs one proved step on the abstract `LocatorState`.
- **Disk firmware download** (`usr/src/cmd/disk-dmc/disk-dmc.c`).
  - SCSI status classification and the WRITE BUFFER command block, with its 24-bit length.
  - The whitespace trim, whole-disk-name truncation and firmware-image checks.
  - The model-string search of the image.
  - Command-line validation.
- **SMB2 SESSION_SETUP handler** (`usr/src/uts/common/fs/smbsrv/smb2_session_setup.c`).
  - The little-endian layout of the request and the reply, and the padding skip.
  - The session-flag and status verdict, and the whole handler as one step on the request.
- **The onbld copyright check** (`usr/src/tools/onbld/Checks/Copyright.py`).
  - Its three regular expressions, written as position predicates with Python's `re` semantics.
  - The counting scan and the three error reports.
- **NDMP CONFIG handlers** (`usr/src/lib/libndmp/common/ndmp_config.c`).
  - The authentication-attribute echo, NDMPv3 attribute masking, connection types and server-information disclosure.
  - The SCSI/tape device report and the butype report.
  - The one-way SET_EXT_LIST handshake.
- **CTF tool utilities** (`usr/src/tools/ctf/cvt/util.c`).
  - NULL-aware string equality, temporary-name construction and type-name display.
  - The debug-level filter and the escalation of warnings.
- **LC_NUMERIC post-load fix-up** (`usr/src/lib/libc/port/locale/lnumeric.c`).
  - What `__numeric_load_locale` does with the file loader's answer.
  - The two legacy `_numeric` bytes, and the current-locale accessor.

Shared vocabulary lives in `Common`:
- `Option`, the C integer widths, C strings;
- `strlcpy`'s truncation and ASCII case folding.

Calls into code that is not modelled are parameters:
- the LSA and DNS queries;
- `smb_authenticate_ext`;
- `__part_load_locale`'s answer, `__fix_locale_grouping_str` and `access()`;
- the backup-type callbacks.

Constants the source takes from headers that are not part of this model are taken from the standards those headers follow:
- the NDMP version 4 protocol: auth types, backup-type attribute bits, `MD5_CHALLENGE_SIZE`;
- the SCSI primary commands: device types, sense keys, WRITE BUFFER;
- `_LDP_*` from the FreeBSD locale code that `lnumeric.c` derives from.

The SMB2 constants come from the SMB2 protocol specification, MS-SMB2.

## Model

| member | source | states |
|---|---|---|
| Common.Strlcpy | usr/src/lib/smbsrv/libmlsvc/common/mlsvc_domain.c:150-152 | the copy is a prefix of the source, shorter than the buffer, and the whole source when it fits |
| DcPipeline.UseConfig | usr/src/lib/smbsrv/libmlsvc/common/mlsvc_domain.c:609-635 | succeeds iff in domain security mode and the configured FQDN (dotted name) or NetBIOS name matches case-insensitively; then yields the configured identity, else UNSUCCESSFUL |
| DcPipeline.EnumTrusted | usr/src/lib/smbsrv/libmlsvc/common/mlsvc_domain.c:592-602 | the extended enumeration's list, or the legacy enumeration's when the extended one fails |
| DcPipeline.QInfo | usr/src/lib/smbsrv/libmlsvc/common/mlsvc_domain.c:566-585 | succeeds iff one of DNS-domain query, configuration, primary-domain query answers, using the first that does; trusts enumerated only on success; failure carries the last query's status |
| DcPipeline.DiscoverDns | usr/src/lib/smbsrv/libmlsvc/common/mlsvc_domain.c:439-452 | no DC from the MSDCS lookup gives DOMAIN_CONTROLLER_NOT_FOUND; otherwise succeeds iff the queries on that DC do, with that DC and their results, and fails with the queries' own status |
| DcPipeline.DiscoverMain | usr/src/lib/smbsrv/libmlsvc/common/mlsvc_domain.c:401-433 | empty domain gives INVALID_PARAMETER, a refused update lock INTERNAL_ERROR, else the DNS discovery's result |
| DcPipeline.EnumerationNeverChangesStatus | usr/src/lib/smbsrv/libmlsvc/common/mlsvc_domain.c:566-602 | whatever the trusted-domain enumerations answer, the pipeline's status and primary identity are the same |
| DcPipeline.DiscoverMainSuccess | usr/src/lib/smbsrv/libmlsvc/common/mlsvc_domain.c:401-452 | success implies a non-empty domain, the update lock, the DC from the lookup and the identity from the first answering source |
| DcPipeline.FirstLabel | usr/src/lib/smbsrv/libmlsvc/common/mlsvc_domain.c:535-540 | a prefix of the entry; when the copied entry has a dot, the part before it, at most 15 characters and dot-free; otherwise the truncated copy |
| DcPipeline.DomainMatch | usr/src/lib/smbsrv/libmlsvc/common/mlsvc_domain.c:515-554 | NULL name or failing resolver init gives false; found iff some search entry's first label matches, and then the buffer holds the first such entry, truncated to the buffer; otherwise the buffer is emptied |
| DcLocator.LocateRequest | usr/src/lib/smbsrv/libmlsvc/common/mlsvc_domain.c:132-154 | rejects exactly a NULL or empty domain, changing nothing; otherwise raises locate, sets cfg_chg iff the domain differs, stores the hint only when no locate was pending, stores the truncated domain and changes nothing else |
| DcLocator.LocateResult | usr/src/lib/smbsrv/libmlsvc/common/mlsvc_domain.c:156-183 | true iff the wait did not time out, the status is 0 and the domain cache holds an entry, which is returned |
| DcLocator.RefreshStep | usr/src/lib/smbsrv/libmlsvc/common/mlsvc_domain.c:204-211 | cfg_chg and locate end up raised and nothing else changes |
| DcLocator.RefreshIdempotent | usr/src/lib/smbsrv/libmlsvc/common/mlsvc_domain.c:198-214 | refreshing twice equals refreshing once |
| DcLocator.BadDcStep | usr/src/lib/smbsrv/libmlsvc/common/mlsvc_domain.c:235-259 | no change unless the name is the current DC and bad_dc is clear; then raises exactly bad_dc and locate |
| DcLocator.SampleStep | usr/src/lib/smbsrv/libmlsvc/common/mlsvc_domain.c:335-346 | returns the two flags, clears both, and clears the DC name exactly when bad_dc was set; nothing else changes |
| DcLocator.CommitStep | usr/src/lib/smbsrv/libmlsvc/common/mlsvc_domain.c:419-423 | on success records the DC and updates the domain cache, on failure changes nothing |
| DcLocator.PublishStep | usr/src/lib/smbsrv/libmlsvc/common/mlsvc_domain.c:362-384 | records the status; restarts iff bad_dc or cfg_chg is set, otherwise clears all three flags |
| DcLocator.StepsPreserveInv | usr/src/lib/smbsrv/libmlsvc/common/mlsvc_domain.c:132-259 | every client call and worker step keeps "a raised flag implies a pending locate" and the buffer bounds |
| DcLocator.CallsPreserveInv | usr/src/lib/smbsrv/libmlsvc/common/mlsvc_domain.c:132-259 | any sequence of client calls keeps the invariant |
| DcLocator.CallsNeverLowerFlags | usr/src/lib/smbsrv/libmlsvc/common/mlsvc_domain.c:132-259 | client calls never clear bad_dc, cfg_chg or locate and never touch the status or the cache |
| DcLocator.PendingRequestKeepsHint | usr/src/lib/smbsrv/libmlsvc/common/mlsvc_domain.c:148-154 | while a locate is pending no client call changes the DC hint |
| DcLocator.RaisedFlagForcesRerun | usr/src/lib/smbsrv/libmlsvc/common/mlsvc_domain.c:365-379 | a flag raised by any call arriving during a run, before or after its write, makes the worker run again |
| DcLocator.ServiceKeepsInv | usr/src/lib/smbsrv/libmlsvc/common/mlsvc_domain.c:313-386 | the worker loop keeps the invariant and goes idle only with all three flags down; otherwise it is still restarting after the last round |
| DcLocator.Locator.constructor | usr/src/lib/smbsrv/libmlsvc/common/mlsvc_domain.c:66 | the zeroed locator, which satisfies the invariant |
| DcLocator.Locator.LocateDc | usr/src/lib/smbsrv/libmlsvc/common/mlsvc_domain.c:124-154 | performs LocateRequest on the record and keeps the invariant |
| DcLocator.Locator.LocateDcResult | usr/src/lib/smbsrv/libmlsvc/common/mlsvc_domain.c:156-183 | returns LocateResult of the record |
| DcLocator.Locator.Refresh | usr/src/lib/smbsrv/libmlsvc/common/mlsvc_domain.c:198-214 | performs RefreshStep |
| DcLocator.Locator.BadDc | usr/src/lib/smbsrv/libmlsvc/common/mlsvc_domain.c:224-263 | performs BadDcStep |
| DcLocator.Locator.WorkerWake | usr/src/lib/smbsrv/libmlsvc/common/mlsvc_domain.c:321-329 | with a locate pending, snapshots the requested domain and DC hint |
| DcLocator.Locator.WorkerSample | usr/src/lib/smbsrv/libmlsvc/common/mlsvc_domain.c:335-346 | performs SampleStep |
| DcLocator.Locator.RunMain | usr/src/lib/smbsrv/libmlsvc/common/mlsvc_domain.c:401-433 | runs the pipeline on the snapshot, returns its status and commits its result |
| DcLocator.Locator.WorkerPublish | usr/src/lib/smbsrv/libmlsvc/common/mlsvc_domain.c:362-385 | performs PublishStep |
| DcLocator.Locator.ServiceRun | usr/src/lib/smbsrv/libmlsvc/common/mlsvc_domain.c:303-390 | one wake-up of the worker: the restart loop over the rounds, every run on the wake-up snapshot, equal to ServiceFrom; idle implies no flag and no pending request |
| DiskDmc.ParseStatus | usr/src/cmd/disk-dmc/disk-dmc.c:83-169 | success iff the ioctl succeeded, the status is no reservation conflict, the request-sense status is GOOD and the sense key is NO SENSE or RECOVERED ERROR; the impossible request-sense status always fails |
| DiskDmc.WriteBufferCdb | usr/src/cmd/disk-dmc/disk-dmc.c:194-202 | ten bytes: opcode 0x3B, the mode's low five bits, zeros elsewhere, and the length modulo 2^24 big-endian in bytes 6-8 |
| DiskDmc.WriteBufferLengthRoundTrip | usr/src/cmd/disk-dmc/disk-dmc.c:44-45 | every length up to MAX_FW_SIZE_IN_BYTES is read back exactly from bytes 6-8 |
| DiskDmc.PackWriteBufferCdb | usr/src/cmd/disk-dmc/disk-dmc.c:194-202 | fills a fresh array with WriteBufferCdb |
| DiskDmc.WriteBufferResult | usr/src/cmd/disk-dmc/disk-dmc.c:222-240 | sequence error and invalid-field sense force failure, microcode-changed sense forces success, otherwise the parsed status |
| DiskDmc.WriteBufferSuccessIff | usr/src/cmd/disk-dmc/disk-dmc.c:222-240 | the download succeeds iff microcode changed, or the status parses and the key is not ILLEGAL REQUEST |
| DiskDmc.Trim | usr/src/cmd/disk-dmc/disk-dmc.c:354-361 | a contiguous slice of the input, everything outside it white space, its ends not white space |
| DiskDmc.TrimmedNeedsNoTrim | usr/src/cmd/disk-dmc/disk-dmc.c:356-361 | a string without white space at its ends is left as it is |
| DiskDmc.TrimIdempotent | usr/src/cmd/disk-dmc/disk-dmc.c:356-361 | trimming twice equals trimming once |
| DiskDmc.TrimAllSpace | usr/src/cmd/disk-dmc/disk-dmc.c:356-361 | an all-space buffer trims to nothing |
| DiskDmc.MemTrimAndCpy | usr/src/cmd/disk-dmc/disk-dmc.c:354-365 | the output holds the trimmed text then a NUL, and the rest of the buffer is untouched |
| DiskDmc.ScanLimitAsWritten | usr/src/cmd/disk-dmc/disk-dmc.c:736-737 | the size_t limit equals fw_len + 1 - model_len whenever the model fits in the image |
| DiskDmc.ScanLimitAsWrittenOverruns | usr/src/cmd/disk-dmc/disk-dmc.c:737 | with a 3-byte image and an 8-byte model the limit wraps to SIZE_MAX - 3 (2^64 - 4), so the scan would read past the image |
| DiskDmc.ScanLimit | usr/src/cmd/disk-dmc/disk-dmc.c:737-741 | the positions below the limit are exactly those where the model fits inside the image |
| DiskDmc.ScanLimitsAgree | usr/src/cmd/disk-dmc/disk-dmc.c:737 | when the model fits, the limit as written and the corrected one coincide |
| DiskDmc.MatchFwImageToModel | usr/src/cmd/disk-dmc/disk-dmc.c:734-746 | true iff the model occurs somewhere inside the image |
| DiskDmc.GetFwImage | usr/src/cmd/disk-dmc/disk-dmc.c:607-652 | a buffer iff open, fstat, the 1..16777215 size check, malloc and the full read succeed; then exactly the file's bytes and their length, else length 0 |
| DiskDmc.LastD | usr/src/cmd/disk-dmc/disk-dmc.c:385 | strrchr(dev, 'd'): none iff there is no 'd', else the position of the last one |
| DiskDmc.DigitsEnd | usr/src/cmd/disk-dmc/disk-dmc.c:386-388 | the end of the run of digits starting at the given position |
| DiskDmc.WholeDiskName | usr/src/cmd/disk-dmc/disk-dmc.c:384-390 | for the path past its "/dev/rdsk/" prefix, the name cut just after the digits that follow its last 'd', unchanged without a 'd' |
| DiskDmc.WholeDiskNameIdempotent | usr/src/cmd/disk-dmc/disk-dmc.c:384-390 | truncating a whole-disk name again changes nothing |
| DiskDmc.TruncateToWholeDisk | usr/src/cmd/disk-dmc/disk-dmc.c:384-390 | writes one NUL into the buffer so that its string is WholeDiskName of the old one |
| DiskDmc.HasBadInfo | usr/src/cmd/disk-dmc/disk-dmc.c:750-767 | a disk is skipped iff bad_info is -1 or 1 |
| DiskDmc.ValidateCommandLine | usr/src/cmd/disk-dmc/disk-dmc.c:911-1014 | the outcome of the root check, the default list mode, the option loop, stray operands and the cross-checks, equal to CommandLine |
| DiskDmc.ScanKeepsWellScanned | usr/src/cmd/disk-dmc/disk-dmc.c:921-984 | while options are accepted, disk and model names fit their buffers and the wait is within 0..300 |
| DiskDmc.WaitOutOfRangeRejected | usr/src/cmd/disk-dmc/disk-dmc.c:969-976 | a -w value below 0 or above 300 anywhere on the line stops the scan with the usage message |
| DiskDmc.StoppedStaysStopped | usr/src/cmd/disk-dmc/disk-dmc.c:921-984 | once usage() has been called no later option matters |
| DiskDmc.AcceptedCommandLine | usr/src/cmd/disk-dmc/disk-dmc.c:986-1014 | an accepted command line has euid at most 1, no operands, a fw file exactly when a disk or model is given, not both, and -i/-w only with a fw file |
| DiskDmc.DefaultIsList | usr/src/cmd/disk-dmc/disk-dmc.c:917-919 | no arguments, or only -v (which getopt returns as the one option v), proceeds in list mode, verbose exactly with -v |
| Smb2SessionSetup.LeRoundTrip | usr/src/uts/common/fs/smbsrv/smb2_session_setup.c:42-51 | decoding n little-endian bytes gives back any value below 256^n |
| Smb2SessionSetup.DecodeFixed | usr/src/uts/common/fs/smbsrv/smb2_session_setup.c:42-51 | "wbbllwwq": StructureSize is bytes 0-1 low byte first, Flags byte 2, SecurityMode byte 3, SecBufOffset bytes 12-13, SecBufLength bytes 14-15 |
| Smb2SessionSetup.DecodeFixedPrefix | usr/src/uts/common/fs/smbsrv/smb2_session_setup.c:42-51 | the fixed part is read from its first 24 bytes only |
| Smb2SessionSetup.FixedRoundTrip | usr/src/uts/common/fs/smbsrv/smb2_session_setup.c:42-51 | decoding the encoded fixed part, whatever follows it, gives back every field |
| Smb2SessionSetup.PaddingSkip | usr/src/uts/common/fs/smbsrv/smb2_session_setup.c:59-62 | positive iff the buffer lies beyond the cursor, and cursor plus skip is the buffer's offset |
| Smb2SessionSetup.SkipPadding | usr/src/uts/common/fs/smbsrv/smb2_session_setup.c:59-62 | either nothing moves or the cursor lands on the security buffer |
| Smb2SessionSetup.VerdictOf | usr/src/uts/common/fs/smbsrv/smb2_session_setup.c:79-105 | GUEST/NULL flags iff success and guest/anonymous user, no other flag; the status recorded iff not success; blob length kept for success and more-processing, else 0 |
| Smb2SessionSetup.EncodeReply | usr/src/uts/common/fs/smbsrv/smb2_session_setup.c:115-124 | "wwww#c": 8 header bytes then the blob, the structure size in bytes 0-1 and the blob's length in bytes 6-7, low byte first |
| Smb2SessionSetup.ReplyRoundTrip | usr/src/uts/common/fs/smbsrv/smb2_session_setup.c:115-123 | the encoded reply decodes back to itself |
| Smb2SessionSetup.ReplyFor | usr/src/uts/common/fs/smbsrv/smb2_session_setup.c:79-81 | structure size 9, offset header + 8, the verdict's flags and blob length, the output blob's prefix of that length |
| Smb2SessionSetup.Respond | usr/src/uts/common/fs/smbsrv/smb2_session_setup.c:83-127 | records the status the verdict says, appends the encoded reply iff it fits, and succeeds iff it fits |
| Smb2SessionSetup.SessionSetupEffects | usr/src/uts/common/fs/smbsrv/smb2_session_setup.c:42-127 | a short fixed part fails with nothing changed; a success has decoded the capabilities, and the blob handed to the authenticator is exactly the SecBufLength request bytes right after the fixed part or at SecBufOffset from the command header, the cursor lying just past them; the reply for the authentication's result is appended |
| Smb2SessionSetup.SessionSetupStep | usr/src/uts/common/fs/smbsrv/smb2_session_setup.c:23-127 | the handler as one step on the request: fixed part, padding skip, blob, authentication and reply in the source's order, with an SDRC_ERROR return at each decode or encode failure |
| Smb2SessionSetup.ShortBlobRefused | usr/src/uts/common/fs/smbsrv/smb2_session_setup.c:67-72 | a security buffer longer than the remaining data makes the handler fail |
| Smb2SessionSetup.SuccessfulReplyLayout | usr/src/uts/common/fs/smbsrv/smb2_session_setup.c:115-127 | after a success the reply keeps what preceded it and then decodes as size 9, offset 72 and the output blob (empty on failure statuses) |
| Smb2SessionSetup.SmbRequest.Take | usr/src/uts/common/fs/smbsrv/smb2_session_setup.c:69-72 | takes n bytes at the cursor and advances it, or fails and changes nothing |
| Smb2SessionSetup.SmbRequest.ReadFixedPart | usr/src/uts/common/fs/smbsrv/smb2_session_setup.c:42-53 | reads the 24-byte fixed part and stores the capabilities, or fails with nothing changed |
| Smb2SessionSetup.SmbRequest.SkipToSecurityBuffer | usr/src/uts/common/fs/smbsrv/smb2_session_setup.c:59-62 | performs SkipPadding |
| Smb2SessionSetup.SmbRequest.SendReply | usr/src/uts/common/fs/smbsrv/smb2_session_setup.c:79-127 | performs Respond |
| Smb2SessionSetup.SmbRequest.SessionSetup | usr/src/uts/common/fs/smbsrv/smb2_session_setup.c:42-127 | the whole handler, equal to SessionSetupStep |
| CopyrightCheck.IsCopyright | usr/src/tools/onbld/Checks/Copyright.py:39-40 | `re.search` of `Copyright (?!\[yyyy\])`: "Copyright " somewhere in the line and not followed by "[yyyy]" |
| CopyrightCheck.IsDelphixCopyright | usr/src/tools/onbld/Checks/Copyright.py:35-37 | `re.search` of the Delphix notice with one or two 20xx years, ending the line or before its one trailing newline |
| CopyrightCheck.IsCurrentCopyright | usr/src/tools/onbld/Checks/Copyright.py:42-43 | `re.search` of `Copyright.*\b<year>\b`: "Copyright" then, later on the same line, the year between word boundaries |
| CopyrightCheck.DelphixIsCopyright | usr/src/tools/onbld/Checks/Copyright.py:36-41 | every line the Delphix pattern accepts is also a copyright line |
| CopyrightCheck.PrefixCopyright | usr/src/tools/onbld/Checks/Copyright.py:37-41 | "Copyright (c) " is never the "[yyyy]" placeholder |
| CopyrightCheck.DelphixNamingYearIsCurrent | usr/src/tools/onbld/Checks/Copyright.py:36-44 | a Delphix line whose (first or second) year is the current year is a current-year claim |
| CopyrightCheck.Report | usr/src/tools/onbld/Checks/Copyright.py:61-73 | return 0 iff no message iff all three counts are non-zero; otherwise the first missing count's message |
| CopyrightCheck.CountsOrdered | usr/src/tools/onbld/Checks/Copyright.py:52-59 | rights >= company rights >= good rights, and good rights at most 1 |
| CopyrightCheck.GoodIffGoodLine | usr/src/tools/onbld/Checks/Copyright.py:52-59 | a good claim is counted iff some line is a Delphix, current-year copyright |
| CopyrightCheck.ScanStopsAtFirstGood | usr/src/tools/onbld/Checks/Copyright.py:57-59 | lines after the first good one do not affect the counts |
| CopyrightCheck.CheckPassesIffGoodLine | usr/src/tools/onbld/Checks/Copyright.py:52-73 | the check passes iff some line is good, and passes iff it prints nothing |
| CopyrightCheck.Copyright | usr/src/tools/onbld/Checks/Copyright.py:46-73 | the loop's counts equal the scan's, and the result and message are its report, naming the file handle when no file name is given |
| NdmpConfig.GetAuthAttr | usr/src/lib/libndmp/common/ndmp_config.c:100-115 | echoes the type; no error iff TEXT or MD5, ILLEGAL_ARGS otherwise; MD5 carries the session challenge, the rest zeros |
| NdmpConfig.ButypeAttrsMasking | usr/src/lib/libndmp/common/ndmp_config.c:159-165 | NDMPv3 clears exactly the five file-history bits, other versions pass the attributes unchanged |
| NdmpConfig.GetButypeInfo | usr/src/lib/libndmp/common/ndmp_config.c:135-173 | NO_MEM and no entries when allocation fails; otherwise one entry per backup type with its name, masked attributes and default environment |
| NdmpConfig.ConnectionTypes | usr/src/lib/libndmp/common/ndmp_config.c:191-197 | TCP first, LOCAL present iff local tape is enabled, never IPC |
| NdmpConfig.CommonScsiInfo | usr/src/lib/libndmp/common/ndmp_config.c:260-313 | empty without local tape or devices; otherwise the report of the live devices of the requested type, in order |
| NdmpConfig.GetScsiInfo | usr/src/lib/libndmp/common/ndmp_config.c:320-324 | the report for changers |
| NdmpConfig.GetTapeInfo | usr/src/lib/libndmp/common/ndmp_config.c:330-334 | the report for tape drives |
| NdmpConfig.ScsiReport | usr/src/lib/libndmp/common/ndmp_config.c:274-308 | the device list in order, keeping the devices of the requested type that are not dead links (`access` failing with ENOENT), one entry each with model, device name and environment |
| NdmpConfig.ScsiReportSound | usr/src/lib/libndmp/common/ndmp_config.c:277-305 | every entry comes from a live device of the requested type, attr 0, with 3 capabilities for tape drives and 2 otherwise |
| NdmpConfig.ScsiReportComplete | usr/src/lib/libndmp/common/ndmp_config.c:274-308 | every live device of the requested type is reported |
| NdmpConfig.ScsiReportLength | usr/src/lib/libndmp/common/ndmp_config.c:274-310 | no more entries than devices, none when no device has the type |
| NdmpConfig.GetServerInfo | usr/src/lib/libndmp/common/ndmp_config.c:348-366 | vendor, product and revision disclosed iff authorized or not NDMPv4, empty otherwise; auth types always TEXT, MD5 |
| NdmpConfig.ServerInfoHidesConf | usr/src/lib/libndmp/common/ndmp_config.c:348-357 | an unauthenticated NDMPv4 reply does not depend on the configuration |
| NdmpConfig.SetExtListHandshake | usr/src/lib/libndmp/common/ndmp_config.c:400-405 | of repeated SET_EXT_LIST calls on a fresh session only the first answers VERSION_NOT_SUPPORTED, all later ones EXT_DANDN_ILLEGAL |
| NdmpConfig.Session.SetExtListV4 | usr/src/lib/libndmp/common/ndmp_config.c:396-408 | leaves the flag set; VERSION_NOT_SUPPORTED the first time, EXT_DANDN_ILLEGAL after |
| NdmpConfig.Session.GetExtListV4 | usr/src/lib/libndmp/common/ndmp_config.c:377-388 | EXT_DANDN_ILLEGAL iff the list was never set, otherwise no error; always an empty class list |
| CtfUtil.StrcmpZeroIff | usr/src/tools/ctf/cvt/util.c:57 | strcmp yields 0 exactly for equal strings |
| CtfUtil.Streq | usr/src/tools/ctf/cvt/util.c:49-61 | true iff both are NULL or both are equal strings, so reflexive and symmetric |
| CtfUtil.Mktmpname | usr/src/tools/ctf/cvt/util.c:174-183 | a C string of the summed length: the original name then the suffix |
| CtfUtil.TdescName | usr/src/tools/ctf/cvt/util.c:199-203 | "(anon)" for a nameless type, its name otherwise |
| CtfUtil.Whine | usr/src/tools/ctf/cvt/util.c:92-102 | "kind: prog: text", then ": " + the errno text + a newline exactly when the format does not end in a newline, and nothing more otherwise |
| CtfUtil.Terminate | usr/src/tools/ctf/cvt/util.c:117-132 | always exits with status 1 and runs the cleanup iff installed; with a format, stderr holds exactly the ERROR report whine writes, without one nothing |
| CtfUtil.Warning | usr/src/tools/ctf/cvt/util.c:135-146 | prints the warning first, and terminates with status 1 iff the debug level is at least 3 |
| CtfUtil.Vadebug | usr/src/tools/ctf/cvt/util.c:149-159 | a message is emitted iff its level is at most the debug level, as "DEBUG: " then the text |
| CtfUtil.Debug | usr/src/tools/ctf/cvt/util.c:161-172 | emits exactly what vadebug does: its own level check is redundant |
| LcNumeric.LoadStep | usr/src/lib/libc/port/locale/lnumeric.c:51-78 | an error changes nothing; any other answer sets the changed flag; a cache answer gives the C bytes '.' and CHAR_MAX; a load puts "." for an empty decimal point, normalises the grouping and mirrors both first bytes |
| LcNumeric.LegacyMirrorsCurrent | usr/src/lib/libc/port/locale/lnumeric.c:65-84 | after a successful load the legacy bytes are those of the locale in effect, except after a cache answer that keeps a loaded locale in use |
| LcNumeric.CachedLocaleLegacyDiffers | usr/src/lib/libc/port/locale/lnumeric.c:74-76 | a concrete cached ',' locale whose legacy bytes read '.' |
| LcNumeric.DecimalPointNeverEmpty | usr/src/lib/libc/port/locale/lnumeric.c:65-69 | through any sequence of loads the decimal point in effect is never empty |
| LcNumeric.NumericLocale.LoadLocale | usr/src/lib/libc/port/locale/lnumeric.c:51-78 | performs LoadStep on the globals and returns the loader's result code |
| LcNumeric.NumericLocale.CurrentNumericLocale | usr/src/lib/libc/port/locale/lnumeric.c:80-85 | the loaded locale iff it is in use, the C locale otherwise |

## Left out

- Locking, condition variables, timeouts and threads in `mlsvc_domain.c`.
  - Each critical section is one atomic method.
  - A wait is modelled by its outcome (timed out or released).
  - Concurrent client calls are explicit sequences around the pipeline's write.
- `syslog`, `smb_set_krb5_realm` (environment variables), `smb_ads_refresh`, `mlsvc_disconnect`, and the domain cache's save to SMF. These are side effects outside the locator record.
- `smb_ddiscover_nbt` is never called; only `smb_ddiscover_domain_match`, which it uses, is modelled.
- The defects in `mlsvc_domain.c` are modelled in their evidently intended illumos form, because the code as written is inconsistent:
  - `smb_ddiscover_main` is called with two different arities, and `smb_ddiscover_dns` with two arguments;
  - `status` is used uninitialised in `smb_ddiscover_dns`;
  - `smb_domain_getinfo` is called twice.
  In the model, the worker runs the pipeline once per iteration, on the snapshot of (domain, DC hint), and `status` counts as 0.
- `smb_dclocator_init`, `smb_ddiscover_wait` and `smb_domainex_free` are left out: thread creation, a bare timed wait and freeing memory.
- disk-dmc.c work that goes through the devices and its libraries is left out:
  - disk discovery and selection;
  - INQUIRY and the readiness polling;
  - the download loop over disks;
  - `process_disk`.
  These are device I/O through libdiskmgt and USCSI. `getopt` itself is taken as input: the parsed option list.
- The fprintf diagnostics of disk-dmc.c and the input the SCSI pass-through returns are inputs or are left out.
- `smb_mbc_decodef`/`encodef` partial effects:
  - a failed decode leaves the request as it was; the source may have written some fields;
  - a padding skip with too little data skips nothing;
  - a reply that does not fit leaves the reply buffer as it was.
- Protocol constants come from the protocol definitions, not from the modelled source files, whose headers are not part of this model:
  - the NDMP authentication types, `MD5_CHALLENGE_SIZE` and the NDMPv4 backup-type attribute bits `NDMP_BUTYPE_BACKUP_FH_FILE` 0x0200 through `NDMP_BUTYPE_RECOVER_FH_DIR` 0x2000, as the NDMP version 4 XDR numbers them after the nine version 3 bits 0x0001-0x0100;
  - the SCSI peripheral device types `DTYPE_SEQUENTIAL` and `DTYPE_CHANGER`;
  - the NT_STATUS values and the SMB2 session flags, from MS-SMB2 and MS-ERREF.
  The lemma NdmpConfig.ButypeAttrsMasking is stated in terms of the mask `V4_ONLY_ATTRS`, the union of those five bits, not of its numeric value.
- `smb_strcasecmp` and `strlcpy` on domain names are modelled on characters, with ASCII case folding only. `smb_strcasecmp` is not part of this model; libsmb's version decodes multibyte characters and folds through its codepage table, and `strlcpy` counts bytes. So a non-ASCII domain name may compare or truncate differently in the source than in DcPipeline.UseConfig, DcPipeline.DomainMatch and DcLocator.LocateRequest.
- `smb_srm_zalloc` never fails in the model; it is an arena allocator.
- NDMP `get_host_info_v3` and `get_fs_info_v3` are left out: they are `gethostname`, `uname`, `sysinfo` and the server's file-system callback. `ndmp_send_reply` is the method's return, and `ndmp_log`/`ndmp_debug` are not modelled.
- NdmpConfig.GetButypeInfo: NDMP_SETENV and the environment count loop are represented by the callback's list itself.
- NdmpConfig.CommonScsiInfo: `access()` is modelled only through `dead`; the alloca'd capability arrays are not modelled separately.
- `findelfsecidx` and `elfterminate` (libelf traversal), `set_terminate_cleanup` and `vaterminate` are left out: the ELF library is not modelled. Formatting with printf arguments is not modelled; a message is its format plus its formatted text.
- CtfUtil.Whine: requires a non-empty format, because the source reads the character before the terminator.
- The process exit in `terminate` and `usage` is an outcome value.
- `__part_load_locale` is represented by its answer: error, cache (with whether a loaded locale is in use) or loaded fields. `__fix_locale_grouping_str` is a parameter.
- LcNumeric.NumericLocale.constructor: the fields of the statically zeroed locale are not modelled before the first load. The accessor never reads them then, so the model starts from the C values.
- `time.strftime('%Y')` in Copyright.py is the `year` parameter, and writing to the output stream is the returned message.
- The command-line driver of Copyright.py and `create.badzone.c` are not part of this model.

## Findings

| source | as written | input that shows it | evidently intended | confidence | as-written member | corrected member |
|---|---|---|---|---|---|---|
| usr/src/cmd/disk-dmc/disk-dmc.c:737 | `limit = fw_len - model_len + 1` in size_t wraps when the model is longer than the image plus one, so the loop compares past the image | fw_len = 3, model of 8 characters: limit = SIZE_MAX - 3, that is 2^64 - 4 | scan only positions where the model fits inside the image (none here) | not executed | DiskDmc.ScanLimitAsWrittenOverruns | DiskDmc.MatchFwImageToModel |
