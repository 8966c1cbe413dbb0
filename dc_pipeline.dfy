/** The discovery pipeline of the DC locator in
    usr/src/lib/smbsrv/libmlsvc/common/mlsvc_domain.c: DNS lookup of a DC,
    the LSA primary-domain query with its configuration fallback, the
    trusted-domain enumeration, and the resolver search-list match.

    Every collaborator (ADS lookup, LSA calls, SMF configuration, the
    domain-cache lock) is an input: a field of `Collaborators`, whose
    function-valued fields are the collaborator calls with their arguments. */
module DcPipeline {
  import opened Common

  // NT status values (MS-ERREF, section 2.3.1).
  const NT_STATUS_SUCCESS: nat := 0
  const NT_STATUS_UNSUCCESSFUL: nat := 0xC000_0001
  const NT_STATUS_INVALID_PARAMETER: nat := 0xC000_000D
  const NT_STATUS_INTERNAL_ERROR: nat := 0xC000_00E5
  const NT_STATUS_DOMAIN_CONTROLLER_NOT_FOUND: nat := 0xC000_0233

  /** A failure status of a collaborator: never NT_STATUS_SUCCESS. */
  type ErrorStatus = s: nat | s != 0 witness 0xC000_0001

  const MAXHOSTNAMELEN: nat := 256
  const NETBIOS_NAME_MAX: nat := 15

  /** smb_dcinfo_t: the DC's host name and its (opaque) address. */
  datatype DcInfo = DcInfo(name: string, addr: string)

  /** smb_domain_t as the pipeline fills it: names, SID, forest, GUID. */
  datatype DomainIdentity = DomainIdentity(
    nbName: string, fqName: string, sid: string, forest: string, guid: string)

  /** One entry of the trusted-domain list, opaque here. */
  datatype TrustedDomain = TrustedDomain(nbName: string, sid: string)

  /** smb_domainex_t: the DC found, the primary domain and its trusts. */
  datatype DomainEx = DomainEx(dc: DcInfo, primary: DomainIdentity, trusted: seq<TrustedDomain>)

  /** What a collaborator call yields: a value, or a failure status. */
  datatype Query<T> = Answered(value: T) | Failed(status: ErrorStatus)
  {
    function StatusCode(): nat
    {
      match this
      case Answered(_) => NT_STATUS_SUCCESS
      case Failed(s) => s
    }
  }

  /** The local configuration smb_ddiscover_use_config reads. */
  datatype LocalConfig = LocalConfig(domainSecMode: bool, identity: DomainIdentity)

  /** The collaborators one pipeline run talks to. `lookupMsdcs(domain, hint)`
      is smb_ads_lookup_msdcs; the LSA fields take (server, domain). */
  datatype Collaborators = Collaborators(
    startUpdate: bool,
    lookupMsdcs: (string, string) -> Option<DcInfo>,
    dnsDomainInfo: (string, string) -> Query<DomainIdentity>,
    config: LocalConfig,
    primaryDomainInfo: (string, string) -> Query<DomainIdentity>,
    trustedEx: (string, string) -> Query<seq<TrustedDomain>>,
    trustedLegacy: (string, string) -> seq<TrustedDomain>)

  /** SMB_IS_FQDN: the name contains a dot. */
  predicate IsFqdn(domain: string)
  {
    '.' in domain
  }

  /** Whether the configured identity names `domain`: by FQDN when
      `domain` has a dot, by NetBIOS name otherwise. */
  predicate ConfigMatches(domain: string, id: DomainIdentity)
  {
    if IsFqdn(domain) then EqualsIgnoreCase(id.fqName, domain) else EqualsIgnoreCase(id.nbName, domain)
  }

  /** smb_ddiscover_use_config. */
  function UseConfig(domain: string, cfg: LocalConfig): (r: Query<DomainIdentity>)
    ensures r.Answered? <==> cfg.domainSecMode && ConfigMatches(domain, cfg.identity)
    ensures r.Answered? ==> r.value == cfg.identity
    ensures r.Failed? ==> r.status == NT_STATUS_UNSUCCESSFUL
  {
    if !cfg.domainSecMode then Failed(NT_STATUS_UNSUCCESSFUL)
    else if ConfigMatches(domain, cfg.identity) then Answered(cfg.identity)
    else Failed(NT_STATUS_UNSUCCESSFUL)
  }

  /** smb_ddiscover_enum_trusted: the extended enumeration, and the legacy
      one when that fails. It has no status of its own. */
  function EnumTrusted(domain: string, server: string, env: Collaborators): (r: seq<TrustedDomain>)
    ensures env.trustedEx(server, domain).Answered? ==> r == env.trustedEx(server, domain).value
    ensures env.trustedEx(server, domain).Failed? ==> r == env.trustedLegacy(server, domain)
  {
    match env.trustedEx(server, domain)
    case Answered(list) => list
    case Failed(_) => env.trustedLegacy(server, domain)
  }

  /** The primary-domain identity from the first source that answers:
      the DNS-domain query, the configuration, the primary-domain query. */
  function PrimaryIdentity(domain: string, server: string, env: Collaborators): Query<DomainIdentity>
  {
    var dns := env.dnsDomainInfo(server, domain);
    if dns.Answered? then dns
    else
      var cfg := UseConfig(domain, env.config);
      if cfg.Answered? then cfg else env.primaryDomainInfo(server, domain)
  }

  /** smb_ddiscover_qinfo: the primary identity, then the trusts. */
  function QInfo(domain: string, server: string, env: Collaborators): (r: Query<(DomainIdentity, seq<TrustedDomain>)>)
    ensures r.Answered? <==>
      || env.dnsDomainInfo(server, domain).Answered?
      || (env.config.domainSecMode && ConfigMatches(domain, env.config.identity))
      || env.primaryDomainInfo(server, domain).Answered?
    ensures env.dnsDomainInfo(server, domain).Answered? ==>
      r.Answered? && r.value.0 == env.dnsDomainInfo(server, domain).value
    ensures (env.dnsDomainInfo(server, domain).Failed? && env.config.domainSecMode
             && ConfigMatches(domain, env.config.identity)) ==>
      r.Answered? && r.value.0 == env.config.identity
    ensures (env.dnsDomainInfo(server, domain).Failed?
             && !(env.config.domainSecMode && ConfigMatches(domain, env.config.identity))
             && env.primaryDomainInfo(server, domain).Answered?) ==>
      r.Answered? && r.value.0 == env.primaryDomainInfo(server, domain).value
    ensures r.Answered? ==> r.value.1 == EnumTrusted(domain, server, env)
    ensures r.Failed? ==> r.status == env.primaryDomainInfo(server, domain).status
  {
    match PrimaryIdentity(domain, server, env)
    case Answered(id) => Answered((id, EnumTrusted(domain, server, env)))
    case Failed(s) => Failed(s)
  }

  /** smb_ddiscover_dns: locate a DC through DNS, then query it. */
  function DiscoverDns(domain: string, server: string, env: Collaborators): (r: Query<DomainEx>)
    ensures env.lookupMsdcs(domain, server).None? ==> r == Failed(NT_STATUS_DOMAIN_CONTROLLER_NOT_FOUND)
    ensures r.Answered? ==> Some(r.value.dc) == env.lookupMsdcs(domain, server)
    ensures env.lookupMsdcs(domain, server).Some? ==>
      var dc := env.lookupMsdcs(domain, server).value;
      && (r.Answered? <==> QInfo(domain, dc.name, env).Answered?)
      && (r.Answered? ==> (r.value.primary, r.value.trusted) == QInfo(domain, dc.name, env).value)
      && (r.Failed? ==> r.status == QInfo(domain, dc.name, env).status)
  {
    match env.lookupMsdcs(domain, server)
    case None => Failed(NT_STATUS_DOMAIN_CONTROLLER_NOT_FOUND)
    case Some(dc) =>
      match QInfo(domain, dc.name, env)
      case Answered(info) => Answered(DomainEx(dc, info.0, info.1))
      case Failed(s) => Failed(s)
  }

  /** smb_ddiscover_main without its state writes: the status it returns
      and the domain information it would publish. */
  function DiscoverMain(domain: string, server: string, env: Collaborators): (r: Query<DomainEx>)
    ensures domain == "" ==> r == Failed(NT_STATUS_INVALID_PARAMETER)
    ensures domain != "" && !env.startUpdate ==> r == Failed(NT_STATUS_INTERNAL_ERROR)
    ensures domain != "" && env.startUpdate ==> r == DiscoverDns(domain, server, env)
  {
    if domain == "" then Failed(NT_STATUS_INVALID_PARAMETER)
    else if !env.startUpdate then Failed(NT_STATUS_INTERNAL_ERROR)
    else DiscoverDns(domain, server, env)
  }

  /** The trusted-domain enumeration never decides whether the pipeline
      succeeds: any other enumeration outcome gives the same status and
      the same primary identity. */
  lemma {:induction false} EnumerationNeverChangesStatus(
    domain: string, server: string, env: Collaborators,
    ex: (string, string) -> Query<seq<TrustedDomain>>, legacy: (string, string) -> seq<TrustedDomain>)
    ensures var env' := env.(trustedEx := ex, trustedLegacy := legacy);
      && DiscoverMain(domain, server, env).StatusCode() == DiscoverMain(domain, server, env').StatusCode()
      && (DiscoverMain(domain, server, env).Answered? ==>
            DiscoverMain(domain, server, env).value.primary == DiscoverMain(domain, server, env').value.primary)
  {
    var env' := env.(trustedEx := ex, trustedLegacy := legacy);
    if domain != "" && env.startUpdate {
      match env.lookupMsdcs(domain, server)
      case None =>
      case Some(dc) =>
        assert PrimaryIdentity(domain, dc.name, env) == PrimaryIdentity(domain, dc.name, env');
    }
  }

  /** The pipeline succeeds only with a DC from the DNS lookup and an
      identity from one of the three sources, tried in order. */
  lemma {:induction false} DiscoverMainSuccess(domain: string, server: string, env: Collaborators)
    requires DiscoverMain(domain, server, env).Answered?
    ensures domain != "" && env.startUpdate
    ensures env.lookupMsdcs(domain, server) == Some(DiscoverMain(domain, server, env).value.dc)
    ensures var dc := DiscoverMain(domain, server, env).value.dc;
      DiscoverMain(domain, server, env).value.primary == PrimaryIdentity(domain, dc.name, env).value
  {
    var dc := env.lookupMsdcs(domain, server).value;
    assert QInfo(domain, dc.name, env).Answered?;
  }

  /** First label of a resolver search entry, as smb_ddiscover_domain_match
      builds it: the entry cut to MAXHOSTNAMELEN - 1 characters; when a
      dot is present, the part before it, cut to 15 characters. */
  function FirstLabel(entry: string): (r: string)
    ensures |r| <= |entry| && r == entry[..|r|]
    ensures '.' in Strlcpy(entry, MAXHOSTNAMELEN) ==> |r| <= NETBIOS_NAME_MAX && '.' !in r
    ensures '.' !in Strlcpy(entry, MAXHOSTNAMELEN) ==> r == Strlcpy(entry, MAXHOSTNAMELEN)
  {
    var copied := Strlcpy(entry, MAXHOSTNAMELEN);
    var dot := IndexOf(copied, '.');
    if dot.None? then copied
    else Strlcpy(copied[..dot.value], NETBIOS_NAME_MAX + 1)
  }

  function IndexOf(s: string, c: char): (r: Option<nat>)
    ensures r.None? <==> c !in s
    ensures r.Some? ==> r.value < |s| && s[r.value] == c && c !in s[..r.value]
  {
    if |s| == 0 then None
    else if s[0] == c then Some(0)
    else
      var rest := IndexOf(s[1..], c);
      assert s[1..][..0] == [];
      match rest
      case None => None
      case Some(i) => assert s[..i + 1] == [s[0]] + s[1..][..i]; Some(i + 1)
  }

  predicate LabelMatches(nbDomain: string, entry: string)
  {
    EqualsIgnoreCase(nbDomain, FirstLabel(entry))
  }

  /** smb_ddiscover_domain_match. `nbDomain` is None for a NULL name;
      `searchList` is None when res_ninit fails, otherwise the default
      domain followed by the search entries. `buf0` is the buffer's
      prior content, left as it was for a NULL name. */
  method DomainMatch(nbDomain: Option<string>, searchList: Option<seq<string>>, len: nat, buf0: string)
    returns (found: bool, buf: string)
    ensures nbDomain.None? ==> !found && buf == buf0
    ensures searchList.None? ==> !found
    ensures nbDomain.Some? && !found ==> buf == ""
    ensures nbDomain.Some? && searchList.Some? ==>
      (found <==> exists k :: 0 <= k < |searchList.value| && LabelMatches(nbDomain.value, searchList.value[k]))
    ensures found ==>
      && nbDomain.Some? && searchList.Some?
      && exists k :: 0 <= k < |searchList.value| && LabelMatches(nbDomain.value, searchList.value[k])
           && (forall j :: 0 <= j < k ==> !LabelMatches(nbDomain.value, searchList.value[j]))
           && buf == Strlcpy(searchList.value[k], len)
  {
    if nbDomain.None? {
      return false, buf0;
    }
    buf := "";
    if searchList.None? {
      return false, buf;
    }
    var nb := nbDomain.value;
    var entries := searchList.value;
    found := false;
    var i := 0;
    while i < |entries|
      invariant 0 <= i <= |entries|
      invariant forall j :: 0 <= j < i ==> !LabelMatches(nb, entries[j])
      invariant !found && buf == ""
    {
      if LabelMatches(nb, entries[i]) {
        found := true;
        buf := Strlcpy(entries[i], len);
        return;
      }
      i := i + 1;
    }
  }
}
