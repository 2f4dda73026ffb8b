/**
 * The decisions of the ECS/ECR client (`AWSInterface` in showtime/core/aws.py).
 * Every call into boto3, docker or supersetbot is an oracle: a field of
 * `Cloud` that gives the reply the call would have produced. What is left
 * is the naming, the order of the create pipeline, the delete steps, the
 * status reduction, the service filter, the cleanup sweep and the
 * environment-variable rewrite.
 */
module Aws {
  import opened Wrappers
  import opened Text

  // ---------------------------------------------------------------------
  // Replies of the cloud and the records the client returns
  // ---------------------------------------------------------------------

  /** What one cloud call gives back: a value, or an exception with its text. */
  datatype Reply<+T> = Returned(value: T) | Raised(message: string)

  /** `AWSError`: the message, the operation that failed and the resource it concerned. */
  datatype AwsError = AwsError(message: string, operation: string, resource: Option<string>)

  /** `EnvironmentResult`. */
  datatype EnvironmentResult = EnvironmentResult(
    success: bool,
    ip: Option<string>,
    serviceName: Option<string>,
    error: Option<string>)

  /** One entry of `describe_services(...)["services"]`; `createdAt` in whole seconds. */
  datatype ServiceDesc = ServiceDesc(
    status: string,
    runningCount: int,
    desiredCount: int,
    createdAt: int,
    taskDefinition: string)

  datatype Detail = Detail(name: string, value: string)

  datatype Attachment = Attachment(details: seq<Detail>)

  datatype Task = Task(attachments: seq<Attachment>)

  /** A network interface; `publicIp` is `Association.PublicIp` when both are present. */
  datatype NetworkInterface = NetworkInterface(publicIp: Option<string>)

  datatype EnvVar = EnvVar(name: string, value: string)

  datatype ContainerDef = ContainerDef(image: string, environment: seq<EnvVar>)

  datatype TaskDef = TaskDef(family: string, containers: seq<ContainerDef>)

  /** The outcome of `batch_delete_image`. */
  datatype ImageReply = ImageDeleted | ImageNotFound | ImageFailed(message: string)

  /** The answers of AWS, docker and supersetbot, one field per call the client makes. */
  datatype Cloud = Cloud(
    build: (string, string) -> bool,                  // _build_docker_image(sha, tag)
    push: string -> bool,                             // _push_to_ecr(tag)
    createService: (string, string, int, string) -> bool, // _create_ecs_service(name, tag, pr, user)
    waitStable: (string, int) -> bool,                // services_stable waiter returns (name, maxAttempts)
    describeServices: string -> Reply<seq<ServiceDesc>>,
    listServices: Reply<seq<string>>,                 // service ARNs of the cluster
    listTasks: string -> Reply<seq<string>>,          // task ARNs of a service
    describeTasks: string -> Reply<seq<Task>>,
    describeNetworkInterfaces: string -> Reply<seq<NetworkInterface>>,
    deleteService: string -> Reply<()>,
    batchDeleteImage: string -> ImageReply,
    describeTaskDefinition: string -> Reply<TaskDef>,
    registerTaskDefinition: TaskDef -> Reply<string>, // the new task definition ARN
    updateService: (string, string) -> Reply<()>)

  const ActiveStatus: string := "ACTIVE"
  const DeleteOperation: string := "delete_environment"
  const CleanupOperation: string := "cleanup_orphaned_environments"

  // ---------------------------------------------------------------------
  // Naming
  // ---------------------------------------------------------------------

  /** The ECS service of a PR at a commit: `pr-{pr}-{sha[:7]}`. */
  function ServiceName(prNumber: int, sha: string): string
  {
    "pr-" + IntToString(prNumber) + "-" + Take(sha, 7)
  }

  /** The ECR image tag pushed for that service. */
  function ImageTag(prNumber: int, sha: string): string
  {
    ServiceName(prNumber, sha) + "-ci"
  }

  /** The service-name filter of `list_circus_environments`. */
  predicate IsCircusServiceName(name: string)
  {
    "pr-" <= name && |Split(name, '-')| >= 3
  }

  /** The service name of an ARN: its last `/` segment. */
  function ServiceNameOfArn(arn: string): (r: string)
    ensures '/' !in r
  {
    Last(Split(arn, '/'))
  }

  /** A service name splits on `-` into `pr`, the PR number and the short SHA. */
  lemma ServiceNameParts(prNumber: nat, sha: string)
    requires '-' !in sha
    ensures Split(ServiceName(prNumber, sha), '-') == ["pr", IntToString(prNumber), Take(sha, 7)]
  {
    var short := Take(sha, 7);
    assert '-' !in short by {
      forall i | 0 <= i < |short| ensures short[i] != '-' {
        assert short[i] == sha[i];
      }
    }
    var parts := ["pr", IntToString(prNumber), short];
    assert Join(parts, '-') == ServiceName(prNumber, sha) by {
      assert Join(parts[2..], '-') == short;
      assert Join(parts[1..], '-') == IntToString(prNumber) + "-" + short;
    }
    assert '-' !in "pr";
    SplitJoin(parts, '-');
  }

  /** Every service this client creates passes the listing filter, and cleanup reads its PR number back. */
  lemma ServiceNameRoundTrip(prNumber: nat, sha: string)
    requires '-' !in sha
    ensures IsCircusServiceName(ServiceName(prNumber, sha))
    ensures ParseNat(Split(ServiceName(prNumber, sha), '-')[1]) == Some(prNumber)
    ensures Last(Split(ServiceName(prNumber, sha), '-')) == Take(sha, 7)
  {
    ServiceNameParts(prNumber, sha);
    ParseNatToString(prNumber);
  }

  // ---------------------------------------------------------------------
  // Service state
  // ---------------------------------------------------------------------

  /** Some service in the list is ACTIVE. */
  function AnyActive(services: seq<ServiceDesc>): (r: bool)
    ensures r <==> exists s :: s in services && s.status == ActiveStatus
  {
    if services == [] then false
    else services[0].status == ActiveStatus || AnyActive(services[1..])
  }

  /** `_service_exists`: an ACTIVE service of that name is described; an exception means no. */
  function ServiceExists(cloud: Cloud, name: string): (r: bool)
    ensures r <==> cloud.describeServices(name).Returned?
                   && exists s :: s in cloud.describeServices(name).value && s.status == ActiveStatus
  {
    match cloud.describeServices(name)
    case Raised(_) => false
    case Returned(services) => AnyActive(services)
  }

  /** `get_environment_status`: the first described service, reduced to one word. */
  function EnvironmentStatus(cloud: Cloud, name: string): (r: string)
    ensures r in {"not_found", "running", "building", "failed", "unknown"}
  {
    match cloud.describeServices(name)
    case Raised(_) => "unknown"
    case Returned(services) =>
      if services == [] then "not_found"
      else
        var s := services[0];
        if s.status == ActiveStatus then
          if s.runningCount == s.desiredCount && s.runningCount > 0 then "running" else "building"
        else "failed"
  }

  /** The status reduction, case by case, in both directions. */
  lemma EnvironmentStatusCases(cloud: Cloud, name: string)
    ensures var r := EnvironmentStatus(cloud, name);
            var d := cloud.describeServices(name);
            && (r == "unknown" <==> d.Raised?)
            && (r == "not_found" <==> d == Returned([]))
            && (r == "running" <==> d.Returned? && d.value != [] && d.value[0].status == ActiveStatus
                                    && d.value[0].runningCount == d.value[0].desiredCount > 0)
            && (r == "building" <==> d.Returned? && d.value != [] && d.value[0].status == ActiveStatus
                                     && !(d.value[0].runningCount == d.value[0].desiredCount > 0))
            && (r == "failed" <==> d.Returned? && d.value != [] && d.value[0].status != ActiveStatus)
  {
  }

  /** A running or building environment is one `_service_exists` reports. */
  lemma LiveStatusMeansExists(cloud: Cloud, name: string)
    requires EnvironmentStatus(cloud, name) in {"running", "building"}
    ensures ServiceExists(cloud, name)
  {
    var services := cloud.describeServices(name).value;
    assert services[0] in services;
  }

  // ---------------------------------------------------------------------
  // IP discovery
  // ---------------------------------------------------------------------

  const NetworkInterfaceId: string := "networkInterfaceId"

  /** A Python value that is set and non-empty. */
  predicate Truthy(o: Option<string>)
  {
    o.Some? && o.value != ""
  }

  /** The value of the first `networkInterfaceId` detail, if any. */
  function FirstEni(details: seq<Detail>): (r: Option<string>)
    ensures r.None? <==> forall j :: 0 <= j < |details| ==> details[j].name != NetworkInterfaceId
  {
    if details == [] then None
    else if details[0].name == NetworkInterfaceId then Some(details[0].value)
    else FirstEni(details[1..])
  }

  lemma {:induction false} FirstEniAt(details: seq<Detail>, d: nat)
    requires d < |details| && details[d].name == NetworkInterfaceId
    requires forall j :: 0 <= j < d ==> details[j].name != NetworkInterfaceId
    ensures FirstEni(details) == Some(details[d].value)
    decreases d
  {
    if d > 0 {
      FirstEniAt(details[1..], d - 1);
    }
  }

  /** The interface the attachments name: the first attachment whose first interface detail is non-empty. */
  function EniIdOf(atts: seq<Attachment>): (r: Option<string>)
    ensures r.Some? ==> r.value != ""
  {
    if atts == [] then None
    else if Truthy(FirstEni(atts[0].details)) then FirstEni(atts[0].details)
    else EniIdOf(atts[1..])
  }

  /** The scan stops at the first attachment with a usable interface. */
  lemma {:induction false} EniIdOfAt(atts: seq<Attachment>, a: nat)
    requires a < |atts| && Truthy(FirstEni(atts[a].details))
    requires forall j :: 0 <= j < a ==> !Truthy(FirstEni(atts[j].details))
    ensures EniIdOf(atts) == FirstEni(atts[a].details)
    decreases a
  {
    if a > 0 {
      EniIdOfAt(atts[1..], a - 1);
    }
  }

  /** With no usable interface detail anywhere, there is no interface. */
  lemma {:induction false} EniIdOfNone(atts: seq<Attachment>)
    requires forall j :: 0 <= j < |atts| ==> !Truthy(FirstEni(atts[j].details))
    ensures EniIdOf(atts) == None
    decreases |atts|
  {
    if atts != [] {
      EniIdOfNone(atts[1..]);
    }
  }

  /** Which attachment supplies the interface: a found index, with none usable before it. */
  lemma {:induction false} EniIdOfFound(atts: seq<Attachment>)
    ensures EniIdOf(atts).Some? <==> exists a :: 0 <= a < |atts| && Truthy(FirstEni(atts[a].details))
    ensures EniIdOf(atts).Some? ==>
      exists a :: 0 <= a < |atts| && FirstEni(atts[a].details) == EniIdOf(atts)
                  && forall j :: 0 <= j < a ==> !Truthy(FirstEni(atts[j].details))
    decreases |atts|
  {
    if atts != [] {
      EniIdOfFound(atts[1..]);
      if !Truthy(FirstEni(atts[0].details)) && EniIdOf(atts).Some? {
        var a :| 0 <= a < |atts[1..]| && FirstEni(atts[1..][a].details) == EniIdOf(atts[1..])
                 && forall j :: 0 <= j < a ==> !Truthy(FirstEni(atts[1..][j].details));
        assert atts[a + 1] == atts[1..][a];
        assert forall j :: 0 <= j < a + 1 ==> !Truthy(FirstEni(atts[j].details)) by {
          forall j | 0 < j < a + 1 ensures !Truthy(FirstEni(atts[j].details)) {
            assert atts[j] == atts[1..][j - 1];
          }
        }
      }
      if exists a :: 0 <= a < |atts| && Truthy(FirstEni(atts[a].details)) {
        var a :| 0 <= a < |atts| && Truthy(FirstEni(atts[a].details));
        if a > 0 {
          assert atts[1..][a - 1] == atts[a];
        }
      }
    }
  }

  /** `get_environment_ip`: first task, its interface, that interface's public IP; None on any gap or exception. */
  function EnvironmentIp(cloud: Cloud, name: string): (r: Option<string>)
    ensures r.Some? ==>
      && cloud.listTasks(name).Returned? && cloud.listTasks(name).value != []
      && cloud.describeTasks(cloud.listTasks(name).value[0]).Returned?
      && cloud.describeTasks(cloud.listTasks(name).value[0]).value != []
      && EniIdOf(cloud.describeTasks(cloud.listTasks(name).value[0]).value[0].attachments).Some?
  {
    match cloud.listTasks(name)
    case Raised(_) => None
    case Returned(taskArns) =>
      if taskArns == [] then None
      else match cloud.describeTasks(taskArns[0])
        case Raised(_) => None
        case Returned(tasks) =>
          if tasks == [] then None
          else match EniIdOf(tasks[0].attachments)
            case None => None
            case Some(eni) =>
              match cloud.describeNetworkInterfaces(eni)
              case Raised(_) => None
              case Returned(interfaces) => if interfaces == [] then None else interfaces[0].publicIp
  }

  /** `get_environment_ip` with its nested scan over attachments and details, each loop left early. */
  method GetEnvironmentIp(cloud: Cloud, name: string) returns (ip: Option<string>)
    ensures ip == EnvironmentIp(cloud, name)
  {
    var taskArns := cloud.listTasks(name);
    if taskArns.Raised? || taskArns.value == [] {
      return None;
    }
    var tasks := cloud.describeTasks(taskArns.value[0]);
    if tasks.Raised? || tasks.value == [] {
      return None;
    }
    var atts := tasks.value[0].attachments;
    var eniId: Option<string> := None;
    var a := 0;
    while a < |atts|
      invariant 0 <= a <= |atts|
      invariant !Truthy(eniId)
      invariant forall j :: 0 <= j < a ==> !Truthy(FirstEni(atts[j].details))
      decreases |atts| - a
    {
      var details := atts[a].details;
      var before := eniId;
      var d := 0;
      while d < |details|
        invariant 0 <= d <= |details|
        invariant eniId == before
        invariant forall j :: 0 <= j < d ==> details[j].name != NetworkInterfaceId
        decreases |details| - d
      {
        if details[d].name == NetworkInterfaceId {
          FirstEniAt(details, d);
          eniId := Some(details[d].value);
          break;
        }
        d := d + 1;
      }
      assert eniId == (if FirstEni(details).Some? then FirstEni(details) else before);
      if Truthy(eniId) {
        EniIdOfAt(atts, a);
        break;
      }
      a := a + 1;
    }
    if !Truthy(eniId) {
      EniIdOfNone(atts);
      return None;
    }
    var interfaces := cloud.describeNetworkInterfaces(eniId.value);
    if interfaces.Raised? || interfaces.value == [] {
      return None;
    }
    ip := interfaces.value[0].publicIp;
  }

  // ---------------------------------------------------------------------
  // Creating an environment
  // ---------------------------------------------------------------------

  /** The steps of `create_environment`, in the order they run. */
  datatype Step = Build | Push | CheckExisting | CreateService | WaitForIp

  const Pipeline: seq<Step> := [Build, Push, CheckExisting, CreateService, WaitForIp]

  /** `_wait_for_deployment_and_get_ip`'s default timeout, in minutes. */
  const DefaultWaitMinutes: int := 10

  /** The waiter polls every 30 seconds, so it makes two attempts per minute. */
  function WaiterMaxAttempts(timeoutMinutes: int): int
  {
    timeoutMinutes * 2
  }

  /** `_wait_for_deployment_and_get_ip`: the IP once the waiter returns; None when it raised. */
  function DeploymentIp(cloud: Cloud, name: string, timeoutMinutes: int): Option<string>
  {
    if cloud.waitStable(name, WaiterMaxAttempts(timeoutMinutes)) then EnvironmentIp(cloud, name) else None
  }

  /** Whether one step of the pipeline lets the next one run. */
  predicate StepOk(cloud: Cloud, prNumber: int, sha: string, githubUser: string, step: Step)
  {
    var name := ServiceName(prNumber, sha);
    var tag := ImageTag(prNumber, sha);
    match step
    case Build => cloud.build(sha, tag)
    case Push => cloud.push(tag)
    case CheckExisting => !ServiceExists(cloud, name)
    case CreateService => cloud.createService(name, tag, prNumber, githubUser)
    case WaitForIp => Truthy(DeploymentIp(cloud, name, DefaultWaitMinutes))
  }

  /** The error `create_environment` reports when a step fails. */
  function StepError(step: Step, name: string): string
  {
    match step
    case Build => "Docker build failed"
    case Push => "ECR push failed"
    case CheckExisting => "Service " + name + " already exists"
    case CreateService => "ECS service creation failed"
    case WaitForIp => "Failed to get environment IP"
  }

  function Failure(error: string): EnvironmentResult
  {
    EnvironmentResult(false, None, None, Some(error))
  }

  /**
   * `create_environment`: the result and the steps that ran. The steps run in
   * pipeline order; every step but the last one run succeeded; success means
   * all five ran and succeeded, with the IP and the service name; a failure
   * carries the error of the step that stopped the pipeline.
   */
  function CreateEnvironment(cloud: Cloud, prNumber: int, sha: string, githubUser: string)
    : (r: (EnvironmentResult, seq<Step>))
    ensures 1 <= |r.1| && r.1 <= Pipeline
    ensures forall i :: 0 <= i < |r.1| - 1 ==> StepOk(cloud, prNumber, sha, githubUser, r.1[i])
    ensures r.0.success <==> r.1 == Pipeline && StepOk(cloud, prNumber, sha, githubUser, WaitForIp)
    ensures r.0.success ==>
      r.0 == EnvironmentResult(true, DeploymentIp(cloud, ServiceName(prNumber, sha), DefaultWaitMinutes),
                               Some(ServiceName(prNumber, sha)), None)
    ensures !r.0.success ==>
      && !StepOk(cloud, prNumber, sha, githubUser, Last(r.1))
      && r.0 == Failure(StepError(Last(r.1), ServiceName(prNumber, sha)))
  {
    var name := ServiceName(prNumber, sha);
    var tag := ImageTag(prNumber, sha);
    if !cloud.build(sha, tag) then (Failure("Docker build failed"), [Build])
    else if !cloud.push(tag) then (Failure("ECR push failed"), [Build, Push])
    else if ServiceExists(cloud, name) then
      (Failure("Service " + name + " already exists"), [Build, Push, CheckExisting])
    else if !cloud.createService(name, tag, prNumber, githubUser) then
      (Failure("ECS service creation failed"), [Build, Push, CheckExisting, CreateService])
    else
      var ip := DeploymentIp(cloud, name, DefaultWaitMinutes);
      if !Truthy(ip) then (Failure("Failed to get environment IP"), Pipeline)
      else (EnvironmentResult(true, ip, Some(name), None), Pipeline)
  }

  /** An ACTIVE service of the same name stops the pipeline right after the push. */
  lemma ExistingServiceRejected(cloud: Cloud, prNumber: int, sha: string, githubUser: string)
    requires cloud.build(sha, ImageTag(prNumber, sha)) && cloud.push(ImageTag(prNumber, sha))
    requires ServiceExists(cloud, ServiceName(prNumber, sha))
    ensures CreateEnvironment(cloud, prNumber, sha, githubUser)
      == (Failure("Service " + ServiceName(prNumber, sha) + " already exists"), [Build, Push, CheckExisting])
  {
  }

  /** Success always comes with a non-empty IP and the service name, never with an error. */
  lemma SuccessIsNonEmptyIp(cloud: Cloud, prNumber: int, sha: string, githubUser: string)
    requires CreateEnvironment(cloud, prNumber, sha, githubUser).0.success
    ensures var r := CreateEnvironment(cloud, prNumber, sha, githubUser).0;
            r.ip.Some? && r.ip.value != "" && r.serviceName == Some(ServiceName(prNumber, sha)) && r.error == None
  {
  }

  // ---------------------------------------------------------------------
  // Deleting an environment
  // ---------------------------------------------------------------------

  /** What `delete_environment` asks of the cloud. */
  datatype CloudAction = DeleteService(service: string) | DeleteImage(tag: string)

  /** The image tag the source deletes: `pr-{pr}-{last dash segment}`, without `-ci`. */
  function DeletedImageTagAsWritten(serviceName: string, prNumber: int): string
  {
    "pr-" + IntToString(prNumber) + "-" + Last(Split(serviceName, '-'))
  }

  /** For every service `create_environment` makes, the as-written delete misses the image it pushed. */
  lemma DeletedImageTagMissesPushedImage(prNumber: nat, sha: string)
    requires '-' !in sha
    ensures DeletedImageTagAsWritten(ServiceName(prNumber, sha), prNumber) != ImageTag(prNumber, sha)
  {
    ServiceNameRoundTrip(prNumber, sha);
    assert |DeletedImageTagAsWritten(ServiceName(prNumber, sha), prNumber)| + 3 == |ImageTag(prNumber, sha)|;
  }

  /** The tag delete should remove: the one create pushed, `pr-{pr}-{sha}-ci`. */
  function DeletedImageTag(serviceName: string, prNumber: int): string
  {
    DeletedImageTagAsWritten(serviceName, prNumber) + "-ci"
  }

  /** With the corrected tag, deleting a created service removes exactly the image that was pushed for it. */
  lemma DeletedImageTagIsPushedImage(prNumber: nat, sha: string)
    requires '-' !in sha
    ensures DeletedImageTag(ServiceName(prNumber, sha), prNumber) == ImageTag(prNumber, sha)
  {
    ServiceNameRoundTrip(prNumber, sha);
  }

  /**
   * `delete_environment`: its outcome and the actions it issued. Nothing is
   * issued when no ACTIVE service exists; otherwise the service is deleted
   * and then the image tag the code computes, `pr-{pr}-{last dash segment}`,
   * a missing image being no error. A failure of either call is an
   * `AWSError` for this operation and service; success is always True.
   */
  function DeleteEnvironment(cloud: Cloud, serviceName: string, prNumber: int)
    : (r: (Result<bool, AwsError>, seq<CloudAction>))
    ensures !ServiceExists(cloud, serviceName) ==> r == (Ok(true), [])
    ensures r.0.Ok? ==> r.0.value
    ensures r.0.Err? ==> r.0.error.operation == DeleteOperation && r.0.error.resource == Some(serviceName)
    ensures ServiceExists(cloud, serviceName) ==>
      && 1 <= |r.1|
      && r.1 <= [DeleteService(serviceName), DeleteImage(DeletedImageTagAsWritten(serviceName, prNumber))]
      && (r.0.Ok? <==> |r.1| == 2 && !cloud.batchDeleteImage(DeletedImageTagAsWritten(serviceName, prNumber)).ImageFailed?)
      && (|r.1| == 1 <==> cloud.deleteService(serviceName).Raised?)
  {
    if !ServiceExists(cloud, serviceName) then (Ok(true), [])
    else match cloud.deleteService(serviceName)
      case Raised(msg) => (Err(AwsError(msg, DeleteOperation, Some(serviceName))), [DeleteService(serviceName)])
      case Returned(_) =>
        var tag := DeletedImageTagAsWritten(serviceName, prNumber);
        var actions := [DeleteService(serviceName), DeleteImage(tag)];
        match cloud.batchDeleteImage(tag)
        case ImageFailed(msg) => (Err(AwsError(msg, DeleteOperation, Some(serviceName))), actions)
        case _ => (Ok(true), actions)
  }

  /** The services and images of a cluster, for reasoning about repeated deletes. */
  datatype Cluster = Cluster(active: set<string>, images: set<string>)

  function ApplyAction(c: Cluster, action: CloudAction): Cluster
  {
    match action
    case DeleteService(s) => c.(active := c.active - {s})
    case DeleteImage(t) => c.(images := c.images - {t})
  }

  function Apply(c: Cluster, actions: seq<CloudAction>): Cluster
    decreases |actions|
  {
    if actions == [] then c else Apply(ApplyAction(c, actions[0]), actions[1..])
  }

  /** A cloud whose services and images are those of the cluster; deletes always go through. */
  function Observe(c: Cluster, base: Cloud): (cloud: Cloud)
    ensures forall name :: ServiceExists(cloud, name) <==> name in c.active
  {
    var cloud := base.(
      describeServices := (name: string) =>
        Returned(if name in c.active then [ServiceDesc(ActiveStatus, 1, 1, 0, "")] else []),
      deleteService := (name: string) => Returned(()),
      batchDeleteImage := (tag: string) => if tag in c.images then ImageDeleted else ImageNotFound);
    assert forall name :: name in c.active ==> ServiceDesc(ActiveStatus, 1, 1, 0, "") in cloud.describeServices(name).value;
    cloud
  }

  /**
   * Deleting twice is deleting once: the first call removes the service and
   * the tag the code computes, the second finds nothing and issues nothing,
   * and nothing else changes.
   */
  lemma DeleteIsIdempotent(c: Cluster, base: Cloud, serviceName: string, prNumber: int)
    ensures var (r1, actions) := DeleteEnvironment(Observe(c, base), serviceName, prNumber);
            var after := Apply(c, actions);
            && r1 == Ok(true)
            && after.active == c.active - {serviceName}
            && (serviceName in c.active ==>
                  after.images == c.images - {DeletedImageTagAsWritten(serviceName, prNumber)})
            && (serviceName !in c.active ==> after == c)
            && DeleteEnvironment(Observe(after, base), serviceName, prNumber) == (Ok(true), [])
  {
    var (r1, actions) := DeleteEnvironment(Observe(c, base), serviceName, prNumber);
    if serviceName in c.active {
      var tag := DeletedImageTagAsWritten(serviceName, prNumber);
      assert actions == [DeleteService(serviceName), DeleteImage(tag)];
      var c1 := ApplyAction(c, DeleteService(serviceName));
      var c2 := ApplyAction(c1, DeleteImage(tag));
      assert Apply(c1, actions[1..]) == Apply(c2, []);
      assert Apply(c, actions) == c2;
    }
  }

  /** As written, deleting a created environment removes its service but leaves the image create pushed. */
  lemma DeleteLeavesPushedImage(c: Cluster, base: Cloud, prNumber: nat, sha: string)
    requires '-' !in sha
    requires ImageTag(prNumber, sha) in c.images
    ensures var after := Apply(c, DeleteEnvironment(Observe(c, base), ServiceName(prNumber, sha), prNumber).1);
            ServiceName(prNumber, sha) !in after.active && ImageTag(prNumber, sha) in after.images
  {
    DeleteIsIdempotent(c, base, ServiceName(prNumber, sha), prNumber);
    DeletedImageTagMissesPushedImage(prNumber, sha);
  }

  // ---------------------------------------------------------------------
  // Listing environments
  // ---------------------------------------------------------------------

  /** One entry of `list_circus_environments`. */
  datatype EnvSummary = EnvSummary(
    serviceName: string,
    status: string,
    runningCount: int,
    desiredCount: int,
    createdAt: int,
    ip: Option<string>)

  function Summary(cloud: Cloud, name: string, s: ServiceDesc): EnvSummary
  {
    EnvSummary(name, s.status, s.runningCount, s.desiredCount, s.createdAt, EnvironmentIp(cloud, name))
  }

  /** Whether the listing keeps a service: its name passes the filter and describe returns it. */
  predicate Listed(cloud: Cloud, name: string)
  {
    IsCircusServiceName(name) && cloud.describeServices(name).Returned? && cloud.describeServices(name).value != []
  }

  /** The entries for some service ARNs, in their order; None when a describe call raised. */
  function Summaries(cloud: Cloud, arns: seq<string>): (r: Option<seq<EnvSummary>>)
    ensures r.Some? ==> forall e :: e in r.value ==> Listed(cloud, e.serviceName)
    ensures r.Some? ==> |r.value| <= |arns|
    decreases |arns|
  {
    if arns == [] then Some([])
    else
      var name := ServiceNameOfArn(arns[0]);
      var rest := Summaries(cloud, arns[1..]);
      if !IsCircusServiceName(name) then rest
      else match cloud.describeServices(name)
        case Raised(_) => None
        case Returned(services) =>
          if services == [] then rest
          else if rest.None? then None
          else Some([Summary(cloud, name, services[0])] + rest.value)
  }

  /** The listing of two runs of ARNs is the listing of the first followed by that of the second. */
  lemma {:induction false} SummariesAppend(cloud: Cloud, a: seq<string>, b: seq<string>)
    ensures Summaries(cloud, a + b) ==
      if Summaries(cloud, a).Some? && Summaries(cloud, b).Some?
      then Some(Summaries(cloud, a).value + Summaries(cloud, b).value) else None
    decreases |a|
  {
    if a == [] {
      assert a + b == b;
      if Summaries(cloud, b).Some? {
        assert [] + Summaries(cloud, b).value == Summaries(cloud, b).value;
      }
    } else {
      assert (a + b)[0] == a[0];
      assert (a + b)[1..] == a[1..] + b;
      SummariesAppend(cloud, a[1..], b);
      var sa, sb := Summaries(cloud, a[1..]), Summaries(cloud, b);
      if sa.Some? && sb.Some? {
        forall x: EnvSummary ensures [x] + (sa.value + sb.value) == ([x] + sa.value) + sb.value {}
      }
    }
  }

  /** Every listed service comes from one of the ARNs. */
  lemma {:induction false} SummariesFromArns(cloud: Cloud, arns: seq<string>)
    requires Summaries(cloud, arns).Some?
    ensures forall e :: e in Summaries(cloud, arns).value ==>
      exists i :: 0 <= i < |arns| && e.serviceName == ServiceNameOfArn(arns[i])
    decreases |arns|
  {
    if arns != [] {
      var rest := Summaries(cloud, arns[1..]);
      if rest.Some? {
        SummariesFromArns(cloud, arns[1..]);
      }
      forall e | e in Summaries(cloud, arns).value
        ensures exists i :: 0 <= i < |arns| && e.serviceName == ServiceNameOfArn(arns[i])
      {
        if rest.Some? && e in rest.value {
          var i :| 0 <= i < |arns[1..]| && e.serviceName == ServiceNameOfArn(arns[1..][i]);
          assert arns[i + 1] == arns[1..][i];
        } else {
          assert e.serviceName == ServiceNameOfArn(arns[0]);
        }
      }
    }
  }

  /** Every ARN whose service passes the filter and is described is listed. */
  lemma {:induction false} SummariesComplete(cloud: Cloud, arns: seq<string>)
    requires Summaries(cloud, arns).Some?
    ensures forall i :: 0 <= i < |arns| && Listed(cloud, ServiceNameOfArn(arns[i])) ==>
      exists e :: e in Summaries(cloud, arns).value && e.serviceName == ServiceNameOfArn(arns[i])
    decreases |arns|
  {
    if arns != [] {
      var name := ServiceNameOfArn(arns[0]);
      var rest := Summaries(cloud, arns[1..]);
      assert rest.Some?;
      SummariesComplete(cloud, arns[1..]);
      forall i | 0 <= i < |arns| && Listed(cloud, ServiceNameOfArn(arns[i]))
        ensures exists e :: e in Summaries(cloud, arns).value && e.serviceName == ServiceNameOfArn(arns[i])
      {
        if i == 0 {
          assert Summary(cloud, name, cloud.describeServices(name).value[0]) in Summaries(cloud, arns).value;
        } else {
          assert arns[i] == arns[1..][i - 1];
          var e :| e in rest.value && e.serviceName == ServiceNameOfArn(arns[i]);
          assert e in Summaries(cloud, arns).value;
        }
      }
    }
  }

  /** `list_circus_environments`: the kept services in ARN order; `[]` when any call raised. */
  function CircusEnvironments(cloud: Cloud): seq<EnvSummary>
  {
    match cloud.listServices
    case Raised(_) => []
    case Returned(arns) => Summaries(cloud, arns).GetOr([])
  }

  /** `list_circus_environments` with its loop appending one entry per kept service. */
  method ListCircusEnvironments(cloud: Cloud) returns (envs: seq<EnvSummary>)
    ensures envs == CircusEnvironments(cloud)
  {
    if cloud.listServices.Raised? {
      return [];
    }
    var arns := cloud.listServices.value;
    envs := [];
    var i := 0;
    while i < |arns|
      invariant 0 <= i <= |arns|
      invariant Summaries(cloud, arns[..i]) == Some(envs)
      decreases |arns| - i
    {
      var name := ServiceNameOfArn(arns[i]);
      assert arns[..i + 1] == arns[..i] + [arns[i]];
      SummariesAppend(cloud, arns[..i], [arns[i]]);
      assert [arns[i]][1..] == [];
      var one := Summaries(cloud, [arns[i]]);
      if IsCircusServiceName(name) {
        var described := cloud.describeServices(name);
        if described.Raised? {
          assert one == None;
          SummariesAppend(cloud, arns[..i + 1], arns[i + 1..]);
          assert arns[..i + 1] + arns[i + 1..] == arns;
          return [];
        }
        if described.value != [] {
          var ip := GetEnvironmentIp(cloud, name);
          var s := described.value[0];
          assert [Summary(cloud, name, s)] + [] == [Summary(cloud, name, s)];
          assert one == Some([Summary(cloud, name, s)]);
          envs := envs + [EnvSummary(name, s.status, s.runningCount, s.desiredCount, s.createdAt, ip)];
        } else {
          assert one == Some([]);
          assert envs + [] == envs;
        }
      } else {
        assert one == Some([]);
        assert envs + [] == envs;
      }
      i := i + 1;
    }
    assert arns[..i] == arns;
  }

  // ---------------------------------------------------------------------
  // The cleanup sweep
  // ---------------------------------------------------------------------

  /** Whether an environment is past its age limit at time `now` (whole seconds). */
  predicate IsOrphaned(e: EnvSummary, now: int, maxAgeHours: int)
  {
    now - e.createdAt > maxAgeHours * 3600
  }

  /** The PR number in a service name: its second `-` segment, read as by `int()`. */
  function PrNumberOf(serviceName: string): (r: Result<nat, string>)
    ensures r.Ok? <==> |Split(serviceName, '-')| >= 2 && IsDigits(Split(serviceName, '-')[1])
  {
    var parts := Split(serviceName, '-');
    if |parts| < 2 then Err("list index out of range")
    else match ParseNat(parts[1])
      case None => Err("invalid literal for int() with base 10: '" + parts[1] + "'")
      case Some(n) => Ok(n)
  }

  /** `xs` in front of a result, which an error swallows. */
  function Prepend(xs: seq<string>, r: Result<seq<string>, AwsError>): Result<seq<string>, AwsError>
  {
    if r.Err? then r else Ok(xs + r.value)
  }

  /**
   * The names a sweep deletes and reports, in order: the loop of
   * `cleanup_orphaned_environments`. Every exception is re-raised as an
   * `AWSError` carrying `str(e)`. A failed delete raised an `AWSError`, a
   * dataclass built from keyword arguments only, so its `str` is empty;
   * a PR number that does not parse keeps the message of the `int` or
   * index error.
   */
  function Sweep(cloud: Cloud, envs: seq<EnvSummary>, now: int, maxAgeHours: int)
    : (r: Result<seq<string>, AwsError>)
    ensures r.Err? ==> r.error.operation == CleanupOperation && r.error.resource == None
    decreases |envs|
  {
    if envs == [] then Ok([])
    else
      var e := envs[0];
      var rest := Sweep(cloud, envs[1..], now, maxAgeHours);
      if !IsOrphaned(e, now, maxAgeHours) then rest
      else match PrNumberOf(e.serviceName)
        case Err(msg) => Err(AwsError(msg, CleanupOperation, None))
        case Ok(pr) =>
          match DeleteEnvironment(cloud, e.serviceName, pr).0
          case Err(_) => Err(AwsError("", CleanupOperation, None))
          case Ok(deleted) => Prepend(if deleted then [e.serviceName] else [], rest)
  }

  /** A failed delete of an orphan ends the sweep with an empty message for the cleanup operation. */
  lemma FailedDeleteLosesMessage(cloud: Cloud, envs: seq<EnvSummary>, now: int, maxAgeHours: int)
    requires envs != [] && IsOrphaned(envs[0], now, maxAgeHours)
    requires PrNumberOf(envs[0].serviceName).Ok?
    requires DeleteEnvironment(cloud, envs[0].serviceName, PrNumberOf(envs[0].serviceName).value).0.Err?
    ensures Sweep(cloud, envs, now, maxAgeHours) == Err(AwsError("", CleanupOperation, None))
  {
  }

  /** The names of the environments past their age limit, in order. */
  function OrphanNames(envs: seq<EnvSummary>, now: int, maxAgeHours: int): (r: seq<string>)
    ensures forall n :: n in r <==> exists e :: e in envs && IsOrphaned(e, now, maxAgeHours) && e.serviceName == n
    decreases |envs|
  {
    if envs == [] then []
    else
      var rest := OrphanNames(envs[1..], now, maxAgeHours);
      if IsOrphaned(envs[0], now, maxAgeHours) then
        assert forall e :: e in envs[1..] ==> e in envs;
        [envs[0].serviceName] + rest
      else rest
  }

  /** Whether the sweep gets past one orphaned environment: its PR number parses and its delete succeeds. */
  predicate SweepsPast(cloud: Cloud, e: EnvSummary)
  {
    PrNumberOf(e.serviceName).Ok? && DeleteEnvironment(cloud, e.serviceName, PrNumberOf(e.serviceName).value).0.Ok?
  }

  /** A sweep succeeds exactly when every orphan parses and deletes, and then it reports exactly the orphans, in order. */
  lemma {:induction false} SweepMeaning(cloud: Cloud, envs: seq<EnvSummary>, now: int, maxAgeHours: int)
    ensures Sweep(cloud, envs, now, maxAgeHours).Ok? <==>
      forall i :: 0 <= i < |envs| && IsOrphaned(envs[i], now, maxAgeHours) ==> SweepsPast(cloud, envs[i])
    ensures Sweep(cloud, envs, now, maxAgeHours).Ok? ==>
      Sweep(cloud, envs, now, maxAgeHours).value == OrphanNames(envs, now, maxAgeHours)
    decreases |envs|
  {
    if envs != [] {
      SweepMeaning(cloud, envs[1..], now, maxAgeHours);
      forall i | 1 <= i < |envs| ensures envs[i] == envs[1..][i - 1] {}
    }
  }

  /** Young environments are never touched: a sweep with no orphans reports nothing and cannot fail. */
  lemma NoOrphansNoDeletes(cloud: Cloud, envs: seq<EnvSummary>, now: int, maxAgeHours: int)
    requires forall e :: e in envs ==> !IsOrphaned(e, now, maxAgeHours)
    ensures Sweep(cloud, envs, now, maxAgeHours) == Ok([])
  {
    SweepMeaning(cloud, envs, now, maxAgeHours);
  }

  lemma PrependAppend(xs: seq<string>, x: string, r: Result<seq<string>, AwsError>)
    ensures Prepend(xs, Prepend([x], r)) == Prepend(xs + [x], r)
  {
    if r.Ok? {
      assert (xs + [x]) + r.value == xs + ([x] + r.value);
    }
  }

  /** `cleanup_orphaned_environments` with its loop appending each deleted name. */
  method CleanupOrphanedEnvironments(cloud: Cloud, now: int, maxAgeHours: int)
    returns (r: Result<seq<string>, AwsError>)
    ensures r == Sweep(cloud, CircusEnvironments(cloud), now, maxAgeHours)
  {
    var envs := ListCircusEnvironments(cloud);
    var orphaned: seq<string> := [];
    var i := 0;
    assert envs[0..] == envs;
    assert Sweep(cloud, envs, now, maxAgeHours).Ok? ==> [] + Sweep(cloud, envs, now, maxAgeHours).value == Sweep(cloud, envs, now, maxAgeHours).value;
    while i < |envs|
      invariant 0 <= i <= |envs|
      invariant Sweep(cloud, envs, now, maxAgeHours) == Prepend(orphaned, Sweep(cloud, envs[i..], now, maxAgeHours))
      decreases |envs| - i
    {
      var e := envs[i];
      assert envs[i..][0] == e && envs[i..][1..] == envs[i + 1..];
      PrependAppend(orphaned, e.serviceName, Sweep(cloud, envs[i + 1..], now, maxAgeHours));
      if IsOrphaned(e, now, maxAgeHours) {
        var pr := PrNumberOf(e.serviceName);
        if pr.Err? {
          return Err(AwsError(pr.error, CleanupOperation, None));
        }
        var deleted := DeleteEnvironment(cloud, e.serviceName, pr.value).0;
        if deleted.Err? {
          return Err(AwsError("", CleanupOperation, None));
        }
        if deleted.value {
          orphaned := orphaned + [e.serviceName];
        }
      }
      i := i + 1;
    }
    assert envs[i..] == [];
    assert orphaned + [] == orphaned;
    r := Ok(orphaned);
  }

  // ---------------------------------------------------------------------
  // Feature flags
  // ---------------------------------------------------------------------

  /** The environment value of a flag. */
  function FlagValue(enabled: bool): string
  {
    if enabled then "True" else "False"
  }

  /** The entries whose names are not in `names`, in their order. */
  function RemoveNames(env: seq<EnvVar>, names: set<string>): (r: seq<EnvVar>)
    ensures forall v :: v in r <==> v in env && v.name !in names
    decreases |env|
  {
    if env == [] then []
    else (if env[0].name in names then [] else [env[0]]) + RemoveNames(env[1..], names)
  }

  /** One pass of the flag loop: drop the flag's entries, append its new value (a dict keeps insertion order). */
  function SetFlag(env: seq<EnvVar>, flag: (string, bool)): seq<EnvVar>
  {
    RemoveNames(env, {flag.0}) + [EnvVar(flag.0, FlagValue(flag.1))]
  }

  function ApplyFlags(env: seq<EnvVar>, flags: seq<(string, bool)>): seq<EnvVar>
    decreases |flags|
  {
    if flags == [] then env else ApplyFlags(SetFlag(env, flags[0]), flags[1..])
  }

  /** The flags as environment entries, in iteration order. */
  function FlagEntries(flags: seq<(string, bool)>): (r: seq<EnvVar>)
    ensures |r| == |flags|
    ensures forall i :: 0 <= i < |flags| ==> r[i] == EnvVar(flags[i].0, FlagValue(flags[i].1))
  {
    if flags == [] then [] else [EnvVar(flags[0].0, FlagValue(flags[0].1))] + FlagEntries(flags[1..])
  }

  function FlagNames(flags: seq<(string, bool)>): (r: set<string>)
    ensures forall i :: 0 <= i < |flags| ==> flags[i].0 in r
    ensures forall n :: n in r ==> exists i :: 0 <= i < |flags| && flags[i].0 == n
  {
    if flags == [] then {}
    else
      var rest := FlagNames(flags[1..]);
      assert forall i :: 1 <= i < |flags| ==> flags[i] == flags[1..][i - 1];
      {flags[0].0} + rest
  }

  /** The names of a dict are distinct. */
  predicate DistinctNames(flags: seq<(string, bool)>)
  {
    forall i, j :: 0 <= i < j < |flags| ==> flags[i].0 != flags[j].0
  }

  lemma {:induction false} RemoveNamesAppend(a: seq<EnvVar>, b: seq<EnvVar>, names: set<string>)
    ensures RemoveNames(a + b, names) == RemoveNames(a, names) + RemoveNames(b, names)
    decreases |a|
  {
    if a == [] {
      assert a + b == b;
    } else {
      assert (a + b)[0] == a[0];
      assert (a + b)[1..] == a[1..] + b;
      RemoveNamesAppend(a[1..], b, names);
    }
  }

  lemma {:induction false} RemoveNamesTwice(env: seq<EnvVar>, a: set<string>, b: set<string>)
    ensures RemoveNames(RemoveNames(env, a), b) == RemoveNames(env, a + b)
    decreases |env|
  {
    if env != [] {
      RemoveNamesTwice(env[1..], a, b);
      var head := if env[0].name in a then [] else [env[0]];
      RemoveNamesAppend(head, RemoveNames(env[1..], a), b);
    }
  }

  /** The first flag of a dict is none of the others, and the others are distinct too. */
  lemma DistinctTail(flags: seq<(string, bool)>)
    requires flags != [] && DistinctNames(flags)
    ensures DistinctNames(flags[1..])
    ensures flags[0].0 !in FlagNames(flags[1..])
  {
    var rest := flags[1..];
    forall i | 0 <= i < |rest| ensures rest[i] == flags[i + 1] {}
  }

  /** A single entry survives removing names other than its own. */
  lemma RemoveNamesSingle(v: EnvVar, names: set<string>)
    requires v.name !in names
    ensures RemoveNames([v], names) == [v]
  {
    assert [v][1..] == [];
  }

  /** Removing other names after setting a flag keeps the flag's entry last. */
  lemma RemoveAfterSetFlag(env: seq<EnvVar>, f: (string, bool), names: set<string>)
    requires f.0 !in names
    ensures RemoveNames(SetFlag(env, f), names) == RemoveNames(env, {f.0} + names) + [EnvVar(f.0, FlagValue(f.1))]
  {
    var entry := EnvVar(f.0, FlagValue(f.1));
    var dropped := RemoveNames(env, {f.0});
    RemoveNamesAppend(dropped, [entry], names);
    RemoveNamesTwice(env, {f.0}, names);
    RemoveNamesSingle(entry, names);
  }

  lemma SeqAssoc<T>(a: seq<T>, b: seq<T>, c: seq<T>)
    ensures (a + b) + c == a + (b + c)
  {
  }

  lemma ClosedFormStep(env: seq<EnvVar>, flags: seq<(string, bool)>)
    requires flags != [] && DistinctNames(flags)
    requires ApplyFlags(SetFlag(env, flags[0]), flags[1..])
             == RemoveNames(SetFlag(env, flags[0]), FlagNames(flags[1..])) + FlagEntries(flags[1..])
    ensures ApplyFlags(env, flags) == RemoveNames(env, FlagNames(flags)) + FlagEntries(flags)
  {
    var f := flags[0];
    var rest := flags[1..];
    var entry := EnvVar(f.0, FlagValue(f.1));
    var kept := RemoveNames(env, FlagNames(flags));
    var tail := FlagEntries(rest);
    assert ApplyFlags(env, flags) == ApplyFlags(SetFlag(env, f), rest);
    assert RemoveNames(SetFlag(env, f), FlagNames(rest)) == kept + [entry] by {
      DistinctTail(flags);
      RemoveAfterSetFlag(env, f, FlagNames(rest));
      assert FlagNames(flags) == {f.0} + FlagNames(rest);
    }
    assert FlagEntries(flags) == [entry] + tail;
    calc {
      ApplyFlags(env, flags);
      ApplyFlags(SetFlag(env, f), rest);
      RemoveNames(SetFlag(env, f), FlagNames(rest)) + tail;
      (kept + [entry]) + tail;
      { SeqAssoc(kept, [entry], tail); }
      kept + ([entry] + tail);
      kept + FlagEntries(flags);
    }
  }

  /**
   * The flag loop in closed form: the entries that are not flags keep their
   * order, and the flags follow in iteration order, each once.
   */
  lemma {:induction false} ApplyFlagsClosedForm(env: seq<EnvVar>, flags: seq<(string, bool)>)
    requires DistinctNames(flags)
    ensures ApplyFlags(env, flags) == RemoveNames(env, FlagNames(flags)) + FlagEntries(flags)
    decreases |flags|
  {
    if flags == [] {
      RemoveNamesNone(env);
      assert env + [] == env;
    } else {
      DistinctTail(flags);
      ApplyFlagsClosedForm(SetFlag(env, flags[0]), flags[1..]);
      ClosedFormStep(env, flags);
    }
  }

  lemma {:induction false} RemoveNamesNone(env: seq<EnvVar>)
    ensures RemoveNames(env, {}) == env
    decreases |env|
  {
    if env != [] {
      RemoveNamesNone(env[1..]);
    }
  }

  /** After the loop each flag has exactly one entry, holding "True" or "False" as the flag says. */
  lemma FlagsOnceEach(env: seq<EnvVar>, flags: seq<(string, bool)>)
    requires DistinctNames(flags)
    ensures var out := ApplyFlags(env, flags);
      forall i :: 0 <= i < |flags| ==>
        && EnvVar(flags[i].0, FlagValue(flags[i].1)) in out
        && forall k :: 0 <= k < |out| && out[k].name == flags[i].0 ==> out[k] == EnvVar(flags[i].0, FlagValue(flags[i].1))
  {
    ApplyFlagsClosedForm(env, flags);
    var kept := RemoveNames(env, FlagNames(flags));
    var entries := FlagEntries(flags);
    var out := ApplyFlags(env, flags);
    assert out == kept + entries;
    forall k | 0 <= k < |kept| ensures out[k].name !in FlagNames(flags) {
      assert out[k] == kept[k] && kept[k] in kept;
    }
    forall i | 0 <= i < |flags|
      ensures EnvVar(flags[i].0, FlagValue(flags[i].1)) in out
      ensures forall k :: 0 <= k < |out| && out[k].name == flags[i].0 ==> out[k] == EnvVar(flags[i].0, FlagValue(flags[i].1))
    {
      assert out[|kept| + i] == entries[i];
      assert flags[i].0 in FlagNames(flags);
      forall k | |kept| <= k < |out| && out[k].name == flags[i].0
        ensures out[k] == EnvVar(flags[i].0, FlagValue(flags[i].1))
      {
        assert out[k] == entries[k - |kept|];
      }
    }
  }

  /** The flag loop of `update_feature_flags`, rebuilding the list on every pass. */
  method RewriteFlags(env: seq<EnvVar>, flags: seq<(string, bool)>) returns (out: seq<EnvVar>)
    ensures out == ApplyFlags(env, flags)
  {
    out := env;
    var i := 0;
    while i < |flags|
      invariant 0 <= i <= |flags|
      invariant ApplyFlags(out, flags[i..]) == ApplyFlags(env, flags)
      decreases |flags| - i
    {
      assert flags[i..][1..] == flags[i + 1..];
      out := RemoveNames(out, {flags[i].0}) + [EnvVar(flags[i].0, FlagValue(flags[i].1))];
      i := i + 1;
    }
    assert flags[i..] == [];
  }

  /** The task definition with the first container's environment rewritten; everything else as it was. */
  function WithFlags(def: TaskDef, flags: seq<(string, bool)>): TaskDef
    requires def.containers != []
  {
    var c := def.containers[0];
    def.(containers := def.containers[0 := c.(environment := ApplyFlags(c.environment, flags))])
  }

  /**
   * `update_feature_flags`: the result and the task definition sent for
   * registration, if the update got that far. False when no service or task
   * definition is found, the definition has no container, or a call raised.
   */
  method UpdateFeatureFlags(cloud: Cloud, serviceName: string, flags: seq<(string, bool)>)
    returns (ok: bool, registered: Option<TaskDef>)
    ensures var d := cloud.describeServices(serviceName);
      (d.Raised? || d.value == []) ==> !ok && registered == None
    ensures registered.Some? ==>
      var d := cloud.describeServices(serviceName);
      var def := cloud.describeTaskDefinition(d.value[0].taskDefinition);
      d.Returned? && d.value != [] && def.Returned? && def.value.containers != []
      && registered.value == WithFlags(def.value, flags)
    ensures var d := cloud.describeServices(serviceName);
      d.Returned? && d.value != [] ==>
      var def := cloud.describeTaskDefinition(d.value[0].taskDefinition);
      (def.Raised? || def.value.containers == [] ==> !ok && registered == None)
      && (def.Returned? && def.value.containers != [] ==> registered == Some(WithFlags(def.value, flags)))
    ensures ok <==>
      && registered.Some?
      && cloud.registerTaskDefinition(registered.value).Returned?
      && cloud.updateService(serviceName, cloud.registerTaskDefinition(registered.value).value).Returned?
  {
    registered := None;
    var described := cloud.describeServices(serviceName);
    if described.Raised? || described.value == [] {
      return false, None;
    }
    var def := cloud.describeTaskDefinition(described.value[0].taskDefinition);
    if def.Raised? || def.value.containers == [] {
      return false, None;
    }
    var container := def.value.containers[0];
    var env := RewriteFlags(container.environment, flags);
    var newDef := def.value.(containers := def.value.containers[0 := container.(environment := env)]);
    registered := Some(newDef);
    var arn := cloud.registerTaskDefinition(newDef);
    if arn.Raised? {
      return false, registered;
    }
    var updated := cloud.updateService(serviceName, arn.value);
    ok := updated.Returned?;
  }
}
