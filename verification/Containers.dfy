/** Container classification of the workload loop (internal/reconciler/workload_reconcile.go). */
module Containers {
  import opened Records

  const START_GRACE_PERIOD: Time := 60 * SECOND
  const CRASHLOOP_THRESHOLD := 3
  const CRASHLOOP_BACKOFF := "CrashLoopBackOff"
  const IMAGE_PULL_REASONS: set<string> := {"ImagePullBackOff", "ErrImagePull"}
  const CONFIG_INVALID_REASONS: set<string> :=
    {"CreateContainerConfigError", "CreateContainerError", "InvalidImageName"}

  datatype Role = Main | Sidecar | Init
  datatype ContainerStatus = Running | Terminated | Waiting

  /** A container as the orchestrator stores it, after the runner's report has been mapped. */
  datatype Container = Container(
    role: Role, status: ContainerStatus, reason: string, message: string, exitCode: int, restarts: int)

  datatype RawRole = RoleUnspecified | RawMain | RawSidecar | RawInit | RoleUnknown
  datatype RawStatus = StatusUnspecified | RawRunning | RawTerminated | RawWaiting | StatusUnknown
  datatype RawContainer = RawContainer(
    role: RawRole, status: RawStatus, reason: string, message: string, exitCode: int, restarts: int)

  datatype FailureReason = ConfigInvalid | ImagePullFailed | StartFailed | CrashLoop | RuntimeLost

  /** A failure message: plain, or naming the exit code of a main container that terminated. */
  datatype Message = Text(text: string) | Terminated(text: string, exitCode: int)

  datatype Failure = Failure(reason: FailureReason, message: Message)

  datatype Verdict = Ready | Pending | Failing(failure: Failure) | Malformed

  function MapRole(role: RawRole): (r: Option<Role>)
    ensures r.None? <==> role in {RoleUnspecified, RoleUnknown}
    ensures (r == Some(Main) <==> role == RawMain) && (r == Some(Init) <==> role == RawInit)
  {
    match role
    case RawMain => Some(Main)
    case RawSidecar => Some(Sidecar)
    case RawInit => Some(Init)
    case _ => None
  }

  /** An unspecified status counts as waiting; an unknown one is an error. */
  function MapStatus(status: RawStatus): (r: Option<ContainerStatus>)
    ensures r.None? <==> status == StatusUnknown
    ensures r == Some(ContainerStatus.Running) <==> status == RawRunning
    ensures r == Some(ContainerStatus.Terminated) <==> status == RawTerminated
  {
    match status
    case StatusUnspecified => Some(Waiting)
    case RawRunning => Some(ContainerStatus.Running)
    case RawTerminated => Some(ContainerStatus.Terminated)
    case RawWaiting => Some(Waiting)
    case StatusUnknown => None
  }

  ghost predicate Maps(raw: Option<RawContainer>, c: Container) {
    && raw.Some?
    && MapRole(raw.value.role) == Some(c.role) && MapStatus(raw.value.status) == Some(c.status)
    && c.reason == raw.value.reason && c.message == raw.value.message
    && c.exitCode == raw.value.exitCode && c.restarts == raw.value.restarts
  }

  ghost predicate Unmappable(raw: Option<RawContainer>) {
    raw.None? || MapRole(raw.value.role).None? || MapStatus(raw.value.status).None?
  }

  /** The runner's containers, or an error when one is nil or carries a role or status that does not map. */
  method MapContainers(raw: seq<Option<RawContainer>>) returns (r: Result<seq<Container>>)
    ensures r.Ok? ==> |r.value| == |raw| && forall i :: 0 <= i < |raw| ==> Maps(raw[i], r.value[i])
    ensures r.Err? <==> exists i :: 0 <= i < |raw| && Unmappable(raw[i])
  {
    var mapped: seq<Container> := [];
    for k := 0 to |raw|
      invariant |mapped| == k && forall i :: 0 <= i < k ==> Maps(raw[i], mapped[i])
    {
      if raw[k].None? {
        return Err;
      }
      var role, status := MapRole(raw[k].value.role), MapStatus(raw[k].value.status);
      if role.None? || status.None? {
        return Err;
      }
      var c := raw[k].value;
      mapped := mapped + [Container(role.value, status.value, c.reason, c.message, c.exitCode, c.restarts)];
    }
    return Ok(mapped);
  }

  function FailureMessage(c: Container): string {
    if c.message != "" then c.message else c.reason
  }

  predicate IsCrashLooping(c: Container) {
    c.status.Waiting? && c.reason == CRASHLOOP_BACKOFF && c.restarts >= CRASHLOOP_THRESHOLD
  }

  /** The failure one container is responsible for, whatever the others do. */
  function OwnFailure(c: Container, age: Time): Option<Failure> {
    var late := age > START_GRACE_PERIOD;
    var pull, config := c.reason in IMAGE_PULL_REASONS, c.reason in CONFIG_INVALID_REASONS;
    var text := Text(FailureMessage(c));
    match c.role
    case Sidecar => None
    case Init =>
      if config then Some(Failure(ConfigInvalid, text))
      else if pull && late then Some(Failure(ImagePullFailed, text))
      else if c.status.Terminated? && c.exitCode != 0 then Some(Failure(StartFailed, text))
      else None
    case Main =>
      if c.status.Terminated? then
        var bare := FailureMessage(c) != "" && c.exitCode == 0;
        Some(Failure(StartFailed, if bare then text else Message.Terminated(FailureMessage(c), c.exitCode)))
      else if IsCrashLooping(c) then Some(Failure(CrashLoop, text))
      else if c.status.Waiting? && pull && late then Some(Failure(ImagePullFailed, text))
      else if c.status.Waiting? && config && late then Some(Failure(ConfigInvalid, text))
      else None
  }

  predicate Fails(c: Container, age: Time) {
    OwnFailure(c, age).Some?
  }

  /** Nothing about this container keeps the workload from being ready. */
  predicate Settled(c: Container) {
    match c.role
    case Sidecar => true
    case Main => c.status.Running?
    case Init => c.status.Running? || (c.status.Terminated? && c.exitCode == 0)
  }

  ghost predicate IsReady(containers: seq<Container>, age: Time) {
    && (forall c :: c in containers ==> !Fails(c, age) && Settled(c))
    && (exists c :: c in containers && c.role.Main?)
  }

  /** The verdict on a workload that is starting. */
  ghost predicate IsVerdict(v: Verdict, containers: seq<Container>, age: Time) {
    && (v.Failing? <==> exists c :: c in containers && Fails(c, age))
    && (v.Failing? ==> exists i :: 0 <= i < |containers| && OwnFailure(containers[i], age) == Some(v.failure)
                                   && forall j :: 0 <= j < i ==> !Fails(containers[j], age))
    && (v.Ready? <==> IsReady(containers, age))
    && (v.Malformed? <==> forall c :: c in containers ==> !Fails(c, age) && !c.role.Main?)
  }

  /** The first container that fails on its own decides. */
  lemma FirstFailureDecides(containers: seq<Container>, k: nat, age: Time)
    requires k < |containers| && forall j :: 0 <= j < k ==> !Fails(containers[j], age)
    ensures var own := OwnFailure(containers[k], age);
      own.Some? ==> IsVerdict(Failing(own.value), containers, age)
  {
    if Fails(containers[k], age) {
      assert containers[k] in containers && containers[k].role in {Main, Init};
    }
  }

  /** Without a failure, the flags the loop collects decide. */
  lemma FlagsDecide(containers: seq<Container>, age: Time, foundMain: bool, mainRunning: bool, initBlocked: bool)
    requires forall j :: 0 <= j < |containers| ==> !Fails(containers[j], age)
    requires foundMain <==> exists i :: 0 <= i < |containers| && containers[i].role.Main?
    requires mainRunning <==>
      forall i :: 0 <= i < |containers| && containers[i].role.Main? ==> containers[i].status.Running?
    requires initBlocked <==>
      exists i :: 0 <= i < |containers| && containers[i].role.Init? && containers[i].status.Waiting?
    ensures IsVerdict(if !foundMain then Malformed else if !initBlocked && mainRunning then Ready else Pending,
        containers, age)
  {
    forall i | 0 <= i < |containers| ensures containers[i] in containers {}
  }

  /** The checks the loop makes on one init or main container. */
  method CheckStarting(c: Container, startAge: Time) returns (failure: Option<Failure>)
    ensures failure == OwnFailure(c, startAge)
  {
    var pull, config := c.reason in IMAGE_PULL_REASONS, c.reason in CONFIG_INVALID_REASONS;
    if c.role.Init? {
      if config {
        return Some(Failure(ConfigInvalid, Text(FailureMessage(c))));
      }
      if pull && startAge > START_GRACE_PERIOD {
        return Some(Failure(ImagePullFailed, Text(FailureMessage(c))));
      }
      if c.status.Terminated? && c.exitCode != 0 {
        return Some(Failure(StartFailed, Text(FailureMessage(c))));
      }
    } else if c.role.Main? {
      if c.status.Terminated? {
        var message := Text(FailureMessage(c));
        if FailureMessage(c) == "" || c.exitCode != 0 {
          message := Message.Terminated(FailureMessage(c), c.exitCode);
        }
        return Some(Failure(StartFailed, message));
      }
      if c.status.Waiting? {
        if c.reason == CRASHLOOP_BACKOFF && c.restarts >= CRASHLOOP_THRESHOLD {
          return Some(Failure(CrashLoop, Text(FailureMessage(c))));
        }
        if pull && startAge > START_GRACE_PERIOD {
          return Some(Failure(ImagePullFailed, Text(FailureMessage(c))));
        }
        if config && startAge > START_GRACE_PERIOD {
          return Some(Failure(ConfigInvalid, Text(FailureMessage(c))));
        }
      }
    }
    return None;
  }

  /** The loop over the containers: the first failure, or the three flags. */
  method ScanStarting(containers: seq<Container>, startAge: Time)
    returns (failure: Option<Failure>, at: nat, mainRunning: bool, foundMain: bool, initBlocked: bool)
    ensures at <= |containers| && forall i :: 0 <= i < at ==> !Fails(containers[i], startAge)
    ensures failure.Some? ==> at < |containers| && OwnFailure(containers[at], startAge) == failure
    ensures failure.None? ==> at == |containers|
    ensures foundMain <==> exists i :: 0 <= i < at && containers[i].role.Main?
    ensures mainRunning <==> forall i :: 0 <= i < at && containers[i].role.Main? ==> containers[i].status.Running?
    ensures initBlocked <==> exists i :: 0 <= i < at && containers[i].role.Init? && containers[i].status.Waiting?
  {
    mainRunning, foundMain, initBlocked := true, false, false;
    at := 0;
    while at < |containers|
      invariant at <= |containers| && forall i :: 0 <= i < at ==> !Fails(containers[i], startAge)
      invariant foundMain <==> exists i :: 0 <= i < at && containers[i].role.Main?
      invariant mainRunning <==> forall i :: 0 <= i < at && containers[i].role.Main? ==> containers[i].status.Running?
      invariant initBlocked <==> exists i :: 0 <= i < at && containers[i].role.Init? && containers[i].status.Waiting?
    {
      var c := containers[at];
      failure := CheckStarting(c, startAge);
      if failure.Some? {
        return;
      }
      if c.role.Main? {
        foundMain := true;
        if !c.status.Running? {
          mainRunning := false;
        }
      } else if c.role.Init? && c.status.Waiting? {
        initBlocked := true;
      }
      at := at + 1;
    }
    failure := None;
  }

  /** A container that cannot be started as it is configured, or whose image cannot be pulled. */
  predicate IsMisconfigured(c: Container) {
    c.reason == "CreateContainerConfigError" || c.reason == "CreateContainerError" || c.reason == "InvalidImageName"
  }

  predicate CannotPull(c: Container) {
    c.reason == "ImagePullBackOff" || c.reason == "ErrImagePull"
  }

  /**
   * What a container has to show for a reason to be given for it. Terminating is fatal to a main container, and
   * to an init container unless it exits with 0; crashing in a loop is to a main container. What may pass is
   * fatal after 60 s, to a main container only while it waits; but an init container that is
   * misconfigured is given no time.
   */
  predicate Deserves(c: Container, age: Time, reason: FailureReason) {
    match reason
    case ConfigInvalid =>
      IsMisconfigured(c) && (c.role.Init? || (c.role.Main? && c.status.Waiting? && age > 60 * SECOND))
    case ImagePullFailed =>
      CannotPull(c) && age > 60 * SECOND && (c.role.Init? || (c.role.Main? && c.status.Waiting?))
    case StartFailed => c.status.Terminated? && (c.role.Main? || (c.role.Init? && c.exitCode != 0))
    case CrashLoop => c.role.Main? && c.status.Waiting? && c.reason == "CrashLoopBackOff" && c.restarts >= 3
    case RuntimeLost => false
  }

  /** The message that goes with a failure: the container's own, and the exit code of a main container if it matters. */
  ghost predicate IsReported(c: Container, message: Message) {
    && (c.message != "" ==> message.text == c.message) && (c.message == "" ==> message.text == c.reason)
    && (message.Terminated? <==>
          c.role.Main? && c.status.Terminated? && (c.exitCode != 0 || (c.message == "" && c.reason == "")))
    && (message.Terminated? ==> message.exitCode == c.exitCode)
  }

  ghost predicate IsDoomed(c: Container, age: Time) {
    exists reason :: Deserves(c, age, reason)
  }

  /**
   * A container fails exactly when it deserves some reason, and the one given is, in the order of configuration,
   * image, start and crash loop, the first.
   */
  lemma OwnFailureIff(c: Container, age: Time)
    ensures Fails(c, age) <==> IsDoomed(c, age)
    ensures Fails(c, age) ==>
      var failure := OwnFailure(c, age).value;
      && Deserves(c, age, failure.reason) && IsReported(c, failure.message)
      && (Deserves(c, age, ConfigInvalid) ==> failure.reason == ConfigInvalid)
      && (Deserves(c, age, ImagePullFailed) ==> failure.reason == ImagePullFailed)
  {
    if Fails(c, age) {
      assert Deserves(c, age, OwnFailure(c, age).value.reason);
    }
  }

  /** The first container that deserves a reason, and the reason it is given. */
  ghost predicate IsFirstDoomed(containers: seq<Container>, i: nat, age: Time, failure: Failure)
    requires i < |containers|
  {
    && Deserves(containers[i], age, failure.reason) && IsReported(containers[i], failure.message)
    && (Deserves(containers[i], age, ConfigInvalid) ==> failure.reason == ConfigInvalid)
    && forall j :: 0 <= j < i ==> !IsDoomed(containers[j], age)
  }

  ghost predicate IsBlamedFor(containers: seq<Container>, age: Time, failure: Failure) {
    exists i: nat :: i < |containers| && IsFirstDoomed(containers, i, age, failure)
  }

  /** There is a main container, every main container runs, and no init container waits. */
  predicate IsUp(containers: seq<Container>) {
    && (exists c :: c in containers && c.role.Main?)
    && forall c :: c in containers ==> (c.role.Main? ==> c.status.Running?) && (c.role.Init? ==> !c.status.Waiting?)
  }

  /** Where no container is doomed, ready is what is up. */
  lemma SparedIsReadyIff(containers: seq<Container>, age: Time)
    requires forall c :: c in containers ==> !IsDoomed(c, age)
    ensures IsReady(containers, age) <==> IsUp(containers)
  {
    forall c | c in containers ensures !Fails(c, age) && !Deserves(c, age, StartFailed) {
      OwnFailureIff(c, age);
    }
  }

  /** What a verdict says of the containers. */
  lemma VerdictMeans(v: Verdict, containers: seq<Container>, age: Time)
    requires IsVerdict(v, containers, age)
    ensures v.Failing? <==> exists c :: c in containers && IsDoomed(c, age)
    ensures v.Failing? ==> IsBlamedFor(containers, age, v.failure)
    ensures !v.Failing? ==> (v.Malformed? <==> forall c :: c in containers ==> !c.role.Main?)
    ensures !v.Failing? ==> (v.Ready? <==> IsUp(containers))
  {
    forall c: Container ensures Fails(c, age) <==> IsDoomed(c, age) {
      OwnFailureIff(c, age);
    }
    if v.Failing? {
      var i :| 0 <= i < |containers| && OwnFailure(containers[i], age) == Some(v.failure)
               && forall j :: 0 <= j < i ==> !Fails(containers[j], age);
      OwnFailureIff(containers[i], age);
      assert IsFirstDoomed(containers, i, age, v.failure);
    } else {
      SparedIsReadyIff(containers, age);
    }
  }

  /**
   * A starting workload is failing exactly when some container deserves a reason, for the first that does.
   * Otherwise it is ready exactly when it is up, and malformed exactly when no container is a main one.
   */
  method ClassifyStarting(containers: seq<Container>, createdAt: Option<Time>, now: Time) returns (v: Verdict)
    ensures createdAt.None? ==> v.Malformed?
    ensures createdAt.Some? ==> IsVerdict(v, containers, now - createdAt.value)
    ensures createdAt.Some? ==> (v.Failing? <==> exists c :: c in containers && IsDoomed(c, now - createdAt.value))
    ensures v.Failing? ==> createdAt.Some? && IsBlamedFor(containers, now - createdAt.value, v.failure)
    ensures createdAt.Some? && !v.Failing? ==>
      (v.Ready? <==> IsUp(containers)) && (v.Malformed? <==> forall c :: c in containers ==> !c.role.Main?)
  {
    if createdAt.None? {
      return Malformed;
    }
    var startAge := now - createdAt.value;
    var failure, at, mainRunning, foundMain, initBlocked := ScanStarting(containers, startAge);
    if failure.Some? {
      FirstFailureDecides(containers, at, startAge);
      v := Failing(failure.value);
    } else {
      FlagsDecide(containers, startAge, foundMain, mainRunning, initBlocked);
      v := if !foundMain then Malformed else if !initBlocked && mainRunning then Ready else Pending;
    }
    VerdictMeans(v, containers, startAge);
  }

  ghost predicate IsFirstCrashLoop(containers: seq<Container>, i: nat, failure: Failure)
    requires i < |containers|
  {
    && containers[i].role.Main? && IsCrashLooping(containers[i])
    && failure == Failure(CrashLoop, Text(FailureMessage(containers[i])))
    && forall j :: 0 <= j < i ==> !(containers[j].role.Main? && IsCrashLooping(containers[j]))
  }

  /** The only thing that fails a running workload is a main container in a crash loop. */
  method ClassifyRunning(containers: seq<Container>) returns (failure: Option<Failure>)
    ensures failure.None? <==> forall c :: c in containers ==> !(c.role.Main? && IsCrashLooping(c))
    ensures failure.Some? ==> exists i: nat :: i < |containers| && IsFirstCrashLoop(containers, i, failure.value)
  {
    for k := 0 to |containers|
      invariant forall i :: 0 <= i < k ==> !(containers[i].role.Main? && IsCrashLooping(containers[i]))
    {
      var c := containers[k];
      if !c.role.Main? {
        continue;
      }
      if IsCrashLooping(c) {
        failure := Some(Failure(CrashLoop, Text(FailureMessage(c))));
        assert IsFirstCrashLoop(containers, k, failure.value);
        return;
      }
    }
    return None;
  }

  predicate SameKind(v: Verdict, w: Verdict) {
    v.Ready? == w.Ready? && v.Pending? == w.Pending? && v.Failing? == w.Failing?
  }

  /** The kind of verdict does not depend on the order in which the runner reports the containers. */
  lemma VerdictIgnoresOrder(a: seq<Container>, b: seq<Container>, age: Time, v: Verdict, w: Verdict)
    requires multiset(a) == multiset(b)
    requires IsVerdict(v, a, age) && IsVerdict(w, b, age)
    ensures SameKind(v, w)
  {
    assert forall c :: c in a <==> c in multiset(a);
    assert forall c :: c in b <==> c in multiset(b);
  }

  /** There is exactly one kind of verdict, and a promoted workload passes the running check as it is. */
  lemma PromotedIsHealthy(containers: seq<Container>, age: Time, v: Verdict, w: Verdict)
    requires IsVerdict(v, containers, age) && IsVerdict(w, containers, age)
    ensures v == w
    ensures v.Ready? ==> forall c :: c in containers ==> !(c.role.Main? && IsCrashLooping(c))
  {
    if v.Failing? {
      var i :| 0 <= i < |containers| && OwnFailure(containers[i], age) == Some(v.failure)
               && forall j :: 0 <= j < i ==> !Fails(containers[j], age);
      var k :| 0 <= k < |containers| && OwnFailure(containers[k], age) == Some(w.failure)
               && forall j :: 0 <= j < k ==> !Fails(containers[j], age);
      assert i == k;
    }
  }
}
