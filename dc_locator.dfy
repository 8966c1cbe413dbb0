/** The shared DC-locator record of
    usr/src/lib/smbsrv/libmlsvc/common/mlsvc_domain.c and the operations
    that change it: the client calls (smb_locate_dc, smb_ddiscover_refresh,
    smb_ddiscover_bad_dc) and the worker (smb_ddiscover_service).

    Every critical section of the source is one method of `Locator`; the
    lock and the condition variable are not modelled, so each method is
    atomic by construction. The abstract value of the record is
    `LocatorState`, and each method is proved to perform one pure step on
    it; the lemmas below are about those steps. */
module DcLocator {
  import opened Common
  import opened DcPipeline

  const SMB_PI_MAX_DOMAIN: nat := 256

  /** smb_dclocator_t, less its mutex and condition variable, plus the
      domain cache that smb_domain_update fills and smb_domain_getinfo reads. */
  datatype LocatorState = LocatorState(
    domain: string,          // sdl_domain
    soughtDc: string,        // sdl_dc, the preferred-DC hint
    dci: DcInfo,             // sdl_dci, the DC last found
    locate: bool,            // sdl_locate
    badDc: bool,             // sdl_bad_dc
    cfgChg: bool,            // sdl_cfg_chg
    status: nat,             // sdl_status
    cache: Option<DomainEx>) // the domain cache

  /** A statically zeroed locator. */
  const Initial := LocatorState("", "", DcInfo("", ""), false, false, false, 0, None)

  /** The record's invariant: a raised flag always comes with a pending
      locate request, so the worker is bound to see it; the stored names
      fit their buffers. */
  predicate Inv(s: LocatorState)
  {
    && ((s.badDc || s.cfgChg) ==> s.locate)
    && |s.domain| < SMB_PI_MAX_DOMAIN
    && |s.soughtDc| < MAXHOSTNAMELEN
  }

  /** A DC name as smb_ddiscover_bad_dc asserts it: not empty. */
  type DcName = s: string | s != "" witness "dc"

  datatype Requested = Requested(state: LocatorState, accepted: bool)

  /** The state part of smb_locate_dc, up to the wait. A NULL domain is
      None. */
  function LocateRequest(s: LocatorState, domain: Option<string>, dc: string): (r: Requested)
    ensures !r.accepted <==> domain.None? || domain.value == ""
    ensures !r.accepted ==> r.state == s
    ensures r.accepted ==>
      && r.state.locate
      && r.state.cfgChg == (s.cfgChg || s.domain != domain.value)
      && r.state.soughtDc == (if s.locate then s.soughtDc else Strlcpy(dc, MAXHOSTNAMELEN))
      && r.state.(domain := s.domain, soughtDc := s.soughtDc, locate := s.locate, cfgChg := s.cfgChg) == s
    ensures r.accepted && Inv(s) ==> r.state.domain == Strlcpy(domain.value, SMB_PI_MAX_DOMAIN)
  {
    if domain.None? || domain.value == "" then Requested(s, false)
    else
      var d := domain.value;
      var s1 := if s.domain != d then s.(domain := Strlcpy(d, SMB_PI_MAX_DOMAIN), cfgChg := true) else s;
      var s2 := if !s1.locate
        then s1.(locate := true, domain := Strlcpy(d, SMB_PI_MAX_DOMAIN), soughtDc := Strlcpy(dc, MAXHOSTNAMELEN))
        else s1;
      Requested(s2, true)
  }

  /** What smb_locate_dc returns once its wait ends: either the wait timed
      out, or the worker cleared `locate`. */
  function LocateResult(s: LocatorState, timedOut: bool): (r: (bool, Option<DomainEx>))
    requires timedOut || !s.locate
    ensures r.0 <==> !timedOut && s.status == NT_STATUS_SUCCESS && s.cache.Some?
    ensures r.0 ==> r.1 == s.cache
    ensures !r.0 ==> r.1.None?
  {
    if timedOut || s.status != NT_STATUS_SUCCESS then (false, None)
    else (s.cache.Some?, s.cache)
  }

  /** smb_ddiscover_refresh. */
  function RefreshStep(s: LocatorState): (r: LocatorState)
    ensures r.cfgChg && r.locate
    ensures r.(cfgChg := s.cfgChg, locate := s.locate) == s
  {
    s.(cfgChg := true, locate := true)
  }

  /** A second refresh finds nothing left to do. */
  lemma RefreshIdempotent(s: LocatorState)
    ensures RefreshStep(RefreshStep(s)) == RefreshStep(s)
  {
  }

  /** smb_ddiscover_bad_dc. */
  function BadDcStep(s: LocatorState, badDc: DcName): (r: LocatorState)
    ensures s.dci.name != badDc || s.badDc ==> r == s
    ensures s.dci.name == badDc && !s.badDc ==> r == s.(badDc := true, locate := true)
  {
    if s.dci.name != badDc || s.badDc then s
    else s.(badDc := true, locate := true)
  }

  /** The request the worker snapshots when it wakes up. */
  datatype Snapshot = Snapshot(domain: string, soughtDc: string)

  datatype Sampled = Sampled(state: LocatorState, badDc: bool, cfgChg: bool)

  /** The worker's sampling of the two flags at the `again:` label. */
  function SampleStep(s: LocatorState): (r: Sampled)
    ensures r.badDc == s.badDc && r.cfgChg == s.cfgChg
    ensures !r.state.badDc && !r.state.cfgChg
    ensures r.state.dci.name == (if s.badDc then "" else s.dci.name)
    ensures r.state.(badDc := s.badDc, cfgChg := s.cfgChg, dci := s.dci) == s
    ensures r.state.dci.addr == s.dci.addr
  {
    var s1 := s.(badDc := false, cfgChg := false);
    var s2 := if s.badDc then s1.(dci := s1.dci.(name := "")) else s1;
    Sampled(s2, s.badDc, s.cfgChg)
  }

  /** The writes smb_ddiscover_main makes once the pipeline is done: the
      DC and the domain cache change only on success. */
  function CommitStep(s: LocatorState, result: Query<DomainEx>): (r: LocatorState)
    ensures result.Failed? ==> r == s
    ensures result.Answered? ==> r == s.(dci := result.value.dc, cache := Some(result.value))
  {
    match result
    case Failed(_) => s
    case Answered(dxi) => s.(dci := dxi.dc, cache := Some(dxi))
  }

  datatype Published = Published(state: LocatorState, restart: bool)

  /** The worker's critical section after a run: record the status, then
      either go round again or go idle clearing all three flags. */
  function PublishStep(s: LocatorState, status: nat): (r: Published)
    ensures r.restart <==> s.badDc || s.cfgChg
    ensures r.state.status == status
    ensures r.restart ==> r.state == s.(status := status)
    ensures !r.restart ==> r.state == s.(status := status, locate := false, badDc := false, cfgChg := false)
  {
    if s.badDc || s.cfgChg then Published(s.(status := status), true)
    else Published(s.(status := status, locate := false, badDc := false, cfgChg := false), false)
  }

  /** A client call that may arrive while the worker runs the pipeline. */
  datatype ClientCall =
    | LocateCall(domain: Option<string>, dc: string)
    | RefreshCall
    | BadDcCall(name: DcName)

  function ApplyCall(s: LocatorState, c: ClientCall): LocatorState
  {
    match c
    case LocateCall(d, dc) => LocateRequest(s, d, dc).state
    case RefreshCall => RefreshStep(s)
    case BadDcCall(x) => BadDcStep(s, x)
  }

  function ApplyCalls(s: LocatorState, cs: seq<ClientCall>): LocatorState
    decreases |cs|
  {
    if cs == [] then s else ApplyCalls(ApplyCall(s, cs[0]), cs[1..])
  }

  /** One iteration of the worker, seen from outside: the collaborators'
      answers, and the client calls that arrive before and after the
      pipeline writes its result. */
  datatype Round = Round(env: Collaborators, beforeCommit: seq<ClientCall>, afterCommit: seq<ClientCall>)

  /** One pipeline run and the calls around it, up to the publish. */
  function RunStep(s: LocatorState, snap: Snapshot, round: Round): (LocatorState, nat)
  {
    var s1 := ApplyCalls(s, round.beforeCommit);
    var result := DiscoverMain(snap.domain, snap.soughtDc, round.env);
    var s2 := CommitStep(s1, result);
    (ApplyCalls(s2, round.afterCommit), result.StatusCode())
  }

  datatype ServiceEnd = ServiceEnd(state: LocatorState, runs: nat, idle: bool)

  /** The `goto again` loop from iteration `i` on, `s` being the state just
      after that iteration's sampling. It ends idle, or after the last round
      given with a flag still raised (the loop would go on). */
  function ServiceFrom(s: LocatorState, snap: Snapshot, rounds: seq<Round>, i: nat): ServiceEnd
    requires i < |rounds|
    decreases |rounds| - i
  {
    var (s1, status) := RunStep(s, snap, rounds[i]);
    var p := PublishStep(s1, status);
    if !p.restart then ServiceEnd(p.state, i + 1, true)
    else if i + 1 == |rounds| then ServiceEnd(p.state, i + 1, false)
    else ServiceFrom(SampleStep(p.state).state, snap, rounds, i + 1)
  }

  // ---------------------------------------------------------------------
  // Properties of the steps
  // ---------------------------------------------------------------------

  lemma {:induction false} StepsPreserveInv(s: LocatorState, c: ClientCall, result: Query<DomainEx>, status: nat)
    requires Inv(s)
    ensures Inv(ApplyCall(s, c))
    ensures Inv(SampleStep(s).state)
    ensures Inv(CommitStep(s, result))
    ensures Inv(PublishStep(s, status).state)
  {
    match c
    case LocateCall(d, dc) =>
      if d.Some? && d.value != "" {
        var r := LocateRequest(s, d, dc).state;
        assert |r.domain| < SMB_PI_MAX_DOMAIN;
        assert |r.soughtDc| < MAXHOSTNAMELEN;
      }
    case RefreshCall =>
    case BadDcCall(_) =>
  }

  lemma {:induction false} CallsPreserveInv(s: LocatorState, cs: seq<ClientCall>)
    requires Inv(s)
    ensures Inv(ApplyCalls(s, cs))
    decreases |cs|
  {
    if cs != [] {
      StepsPreserveInv(s, cs[0], Failed(NT_STATUS_UNSUCCESSFUL), 0);
      CallsPreserveInv(ApplyCall(s, cs[0]), cs[1..]);
    }
  }

  /** Client calls never lower a flag, a pending request, or touch the
      status and the cache: only the worker does. */
  lemma {:induction false} CallsNeverLowerFlags(s: LocatorState, cs: seq<ClientCall>)
    ensures var r := ApplyCalls(s, cs);
      && (s.badDc ==> r.badDc) && (s.cfgChg ==> r.cfgChg) && (s.locate ==> r.locate)
      && r.status == s.status && r.cache == s.cache
    decreases |cs|
  {
    if cs != [] {
      CallsNeverLowerFlags(ApplyCall(s, cs[0]), cs[1..]);
    }
  }

  /** The worker's snapshot is never stolen: while a request is pending no
      client call changes the preferred-DC hint. */
  lemma {:induction false} PendingRequestKeepsHint(s: LocatorState, cs: seq<ClientCall>)
    requires s.locate
    ensures ApplyCalls(s, cs).soughtDc == s.soughtDc
    decreases |cs|
  {
    if cs != [] {
      PendingRequestKeepsHint(ApplyCall(s, cs[0]), cs[1..]);
    }
  }

  /** No raised flag is lost: a flag raised by any call that arrives while
      a run is in progress, before or after the pipeline's write, makes the
      worker run again instead of going idle. */
  lemma {:induction false} RaisedFlagForcesRerun(s: LocatorState, snap: Snapshot, round: Round, k: nat, before: bool)
    requires k < (if before then |round.beforeCommit| else |round.afterCommit|)
    requires before ==>
      var mid := ApplyCalls(s, round.beforeCommit[..k + 1]); mid.badDc || mid.cfgChg
    requires !before ==>
      var s2 := CommitStep(ApplyCalls(s, round.beforeCommit), DiscoverMain(snap.domain, snap.soughtDc, round.env));
      var mid := ApplyCalls(s2, round.afterCommit[..k + 1]); mid.badDc || mid.cfgChg
    ensures var (s1, status) := RunStep(s, snap, round); PublishStep(s1, status).restart
  {
    var result := DiscoverMain(snap.domain, snap.soughtDc, round.env);
    if before {
      var cs := round.beforeCommit;
      ApplyCallsSplit(s, cs[..k + 1], cs[k + 1..]);
      assert cs[..k + 1] + cs[k + 1..] == cs;
      var mid := ApplyCalls(s, cs[..k + 1]);
      CallsNeverLowerFlags(mid, cs[k + 1..]);
      var s1 := ApplyCalls(s, cs);
      CallsNeverLowerFlags(CommitStep(s1, result), round.afterCommit);
    } else {
      var cs := round.afterCommit;
      var s2 := CommitStep(ApplyCalls(s, round.beforeCommit), result);
      ApplyCallsSplit(s2, cs[..k + 1], cs[k + 1..]);
      assert cs[..k + 1] + cs[k + 1..] == cs;
      CallsNeverLowerFlags(ApplyCalls(s2, cs[..k + 1]), cs[k + 1..]);
    }
  }

  lemma {:induction false} ApplyCallsSplit(s: LocatorState, a: seq<ClientCall>, b: seq<ClientCall>)
    ensures ApplyCalls(s, a + b) == ApplyCalls(ApplyCalls(s, a), b)
    decreases |a|
  {
    if a == [] {
      assert a + b == b;
    } else {
      assert (a + b)[0] == a[0];
      assert (a + b)[1..] == a[1..] + b;
      ApplyCallsSplit(ApplyCall(s, a[0]), a[1..], b);
    }
  }

  /** The worker goes idle only with every flag down and no request
      pending, keeps the invariant, and records the last run's status;
      every run uses the snapshot taken at wake-up. */
  lemma {:induction false} ServiceKeepsInv(s: LocatorState, snap: Snapshot, rounds: seq<Round>, i: nat)
    requires i < |rounds| && Inv(s) && s.locate
    ensures var e := ServiceFrom(s, snap, rounds, i);
      && Inv(e.state)
      && i < e.runs <= |rounds|
      && (e.idle ==> !e.state.locate && !e.state.badDc && !e.state.cfgChg)
      && (!e.idle ==> e.runs == |rounds| && e.state.locate && (e.state.badDc || e.state.cfgChg))
    decreases |rounds| - i
  {
    var round := rounds[i];
    var result := DiscoverMain(snap.domain, snap.soughtDc, round.env);
    CallsPreserveInv(s, round.beforeCommit);
    CallsNeverLowerFlags(s, round.beforeCommit);
    var s1 := ApplyCalls(s, round.beforeCommit);
    StepsPreserveInv(s1, RefreshCall, result, 0);
    var s2 := CommitStep(s1, result);
    CallsPreserveInv(s2, round.afterCommit);
    CallsNeverLowerFlags(s2, round.afterCommit);
    var s3 := ApplyCalls(s2, round.afterCommit);
    StepsPreserveInv(s3, RefreshCall, result, result.StatusCode());
    var p := PublishStep(s3, result.StatusCode());
    if p.restart && i + 1 < |rounds| {
      StepsPreserveInv(p.state, RefreshCall, result, 0);
      ServiceKeepsInv(SampleStep(p.state).state, snap, rounds, i + 1);
    }
  }

  // ---------------------------------------------------------------------
  // The record, updated in place
  // ---------------------------------------------------------------------

  class Locator {
    var domain: string
    var soughtDc: string
    var dci: DcInfo
    var locate: bool
    var badDc: bool
    var cfgChg: bool
    var status: nat
    var cache: Option<DomainEx>

    function State(): LocatorState
      reads this
    {
      LocatorState(domain, soughtDc, dci, locate, badDc, cfgChg, status, cache)
    }

    ghost predicate Valid()
      reads this
    {
      Inv(State())
    }

    method SetState(s: LocatorState)
      modifies this
      ensures State() == s
    {
      domain, soughtDc, dci := s.domain, s.soughtDc, s.dci;
      locate, badDc, cfgChg := s.locate, s.badDc, s.cfgChg;
      status, cache := s.status, s.cache;
    }

    /** The statically zeroed smb_dclocator. */
    constructor ()
      ensures State() == Initial && Valid()
    {
      domain, soughtDc, dci := "", "", DcInfo("", "");
      locate, badDc, cfgChg := false, false, false;
      status, cache := 0, None;
    }

    /** smb_locate_dc up to its wait: false means it returned at once. */
    method LocateDc(d: Option<string>, dc: string) returns (accepted: bool)
      requires Valid()
      modifies this
      ensures Valid()
      ensures Requested(State(), accepted) == LocateRequest(old(State()), d, dc)
    {
      if d.None? || d.value == "" {
        return false;
      }
      if domain != d.value {
        domain := Strlcpy(d.value, SMB_PI_MAX_DOMAIN);
        cfgChg := true;
      }
      if !locate {
        locate := true;
        domain := Strlcpy(d.value, SMB_PI_MAX_DOMAIN);
        soughtDc := Strlcpy(dc, MAXHOSTNAMELEN);
      }
      accepted := true;
      StepsPreserveInv(old(State()), LocateCall(d, dc), Failed(NT_STATUS_UNSUCCESSFUL), 0);
    }

    /** smb_locate_dc after its wait: released by a timeout, or because
        the worker went idle. */
    method LocateDcResult(timedOut: bool) returns (rv: bool, info: Option<DomainEx>)
      requires timedOut || !locate
      ensures (rv, info) == LocateResult(State(), timedOut)
    {
      if timedOut || status != NT_STATUS_SUCCESS {
        return false, None;
      }
      rv := cache.Some?;
      info := cache;
    }

    /** smb_ddiscover_refresh. */
    method Refresh()
      requires Valid()
      modifies this
      ensures Valid()
      ensures State() == RefreshStep(old(State()))
    {
      if !cfgChg {
        cfgChg := true;
      }
      if !locate {
        locate := true;
      }
    }

    /** smb_ddiscover_bad_dc. */
    method BadDc(x: DcName)
      requires Valid()
      modifies this
      ensures Valid()
      ensures State() == BadDcStep(old(State()), x)
    {
      if dci.name != x {
        return;
      }
      if badDc {
        return;
      }
      badDc := true;
      if !locate {
        locate := true;
      }
    }

    method Call(c: ClientCall)
      requires Valid()
      modifies this
      ensures Valid()
      ensures State() == ApplyCall(old(State()), c)
    {
      match c
      case LocateCall(d, dc) => var _ := LocateDc(d, dc);
      case RefreshCall => Refresh();
      case BadDcCall(x) => BadDc(x);
    }

    method CallAll(cs: seq<ClientCall>)
      requires Valid()
      modifies this
      ensures Valid()
      ensures State() == ApplyCalls(old(State()), cs)
    {
      var i := 0;
      while i < |cs|
        invariant 0 <= i <= |cs|
        invariant Valid()
        invariant ApplyCalls(State(), cs[i..]) == ApplyCalls(old(State()), cs)
      {
        assert cs[i..][0] == cs[i] && cs[i..][1..] == cs[i + 1..];
        Call(cs[i]);
        i := i + 1;
      }
    }

    /** The worker wakes only with a request pending, and copies the
        requested domain and DC hint. */
    method WorkerWake() returns (snap: Snapshot)
      requires locate
      ensures snap == Snapshot(domain, soughtDc)
    {
      snap := Snapshot(domain, soughtDc);
    }

    /** The worker samples and clears the two flags. */
    method WorkerSample() returns (bad: bool, chg: bool)
      requires Valid()
      modifies this
      ensures Valid()
      ensures Sampled(State(), bad, chg) == SampleStep(old(State()))
    {
      bad := badDc;
      badDc := false;
      if bad {
        dci := dci.(name := "");
      }
      chg := cfgChg;
      cfgChg := false;
    }

    /** smb_ddiscover_main on the snapshot: run the pipeline once and write
        its result. */
    method RunMain(snap: Snapshot, env: Collaborators) returns (st: nat)
      requires Valid()
      modifies this
      ensures Valid()
      ensures var result := DiscoverMain(snap.domain, snap.soughtDc, env);
        st == result.StatusCode() && State() == CommitStep(old(State()), result)
    {
      var result := DiscoverMain(snap.domain, snap.soughtDc, env);
      if result.Answered? {
        dci := result.value.dc;
        cache := Some(result.value);
      }
      st := result.StatusCode();
    }

    /** The worker's critical section after a run. */
    method WorkerPublish(st: nat) returns (restart: bool)
      requires Valid()
      modifies this
      ensures Valid()
      ensures Published(State(), restart) == PublishStep(old(State()), st)
    {
      status := st;
      if badDc || cfgChg {
        return true;
      }
      locate := false;
      badDc := false;
      cfgChg := false;
      restart := false;
    }

    /** smb_ddiscover_service from one wake-up to idle: one pipeline run
        per iteration, on the snapshot taken at wake-up, with the given
        client calls interleaved. */
    method ServiceRun(rounds: seq<Round>) returns (runs: nat, idle: bool)
      requires Valid() && locate && |rounds| > 0
      modifies this
      ensures Valid()
      ensures ServiceEnd(State(), runs, idle) ==
        ServiceFrom(SampleStep(old(State())).state, Snapshot(old(domain), old(soughtDc)), rounds, 0)
      ensures idle ==> !locate && !badDc && !cfgChg
    {
      ghost var s0 := SampleStep(State()).state;
      var snap := WorkerWake();
      var _, _ := WorkerSample();
      ServiceKeepsInv(s0, snap, rounds, 0);
      var i := 0;
      while true
        invariant 0 <= i < |rounds|
        invariant Valid()
        invariant ServiceFrom(State(), snap, rounds, i) == ServiceFrom(s0, snap, rounds, 0)
        decreases |rounds| - i
      {
        CallAll(rounds[i].beforeCommit);
        var st := RunMain(snap, rounds[i].env);
        CallAll(rounds[i].afterCommit);
        var restart := WorkerPublish(st);
        if !restart {
          return i + 1, true;
        }
        if i + 1 == |rounds| {
          return i + 1, false;
        }
        var _, _ := WorkerSample();
        i := i + 1;
      }
    }
  }
}
