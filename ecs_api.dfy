/**
 * The container-service backend the scheduler talks to, reduced to the calls the core
 * makes. The state is the services of the cluster (name to task definition and desired
 * count), the latest registered revision of every task-definition family, and the log of
 * state-changing calls in the order they were issued. Which calls fail is fixed up front
 * by `faults`; the read-only calls (the paged service listing, listing and describing
 * tasks) answer from fixed responses.
 */
module EcsApi {
  import opened Common

  datatype KeyValuePair = KeyValuePair(name: string, value: string)

  /** The container definition sent with a task-definition registration. */
  datatype ContainerDefinition = ContainerDefinition(
    name: string,
    cpu: int,
    command: seq<string>,
    image: string,
    memory: int,
    environment: seq<KeyValuePair>)

  /** A state-changing request, as issued. */
  datatype Call =
    | RegisterTaskDefinitionCall(family: string, container: ContainerDefinition)
    | CreateServiceCall(serviceName: string, taskDefinition: string, desiredCount: int)
    | DeleteServiceCall(service: string)
    | UpdateServiceCall(service: string, desiredCount: int)

  /** A live service of the cluster. */
  datatype Service = Service(taskDefinition: string, desiredCount: int)

  /** The registered task definition a registration answers with. */
  datatype TaskDefinition = TaskDefinition(family: string, revision: nat)

  /** One entry of a task description: its ARN and its last reported status. */
  datatype DescribedTask = DescribedTask(taskArn: string, lastStatus: string)

  /** One page of the service listing; an entry may be nil. */
  type Page = seq<Option<string>>

  /**
   * The paged service listing: the pages the backend delivers, and the error it reports
   * when asked for the page after the last one delivered (None: there is no next page).
   */
  datatype Listing = Listing(pages: seq<Page>, err: Option<Error>)

  /** Registration always creates a new revision, one past the family's latest. */
  function NextRevision(revisions: map<string, nat>, family: string): (r: nat)
    ensures r >= 1
    ensures family in revisions ==> r == revisions[family] + 1
    ensures family !in revisions ==> r == 1
  {
    if family in revisions then revisions[family] + 1 else 1
  }

  /**
   * The error the backend answers a call with, given its faults and its services:
   * a faulted call fails with its fault; an update or delete of a missing service fails
   * with ServiceNotFound; every other call succeeds.
   */
  function Rejection(faults: map<Call, Error>, services: map<string, Service>, call: Call): Option<Error>
  {
    if call in faults then Some(faults[call])
    else match call
      case DeleteServiceCall(s) => if s in services then None else Some(ServiceNotFound(s))
      case UpdateServiceCall(s, _) => if s in services then None else Some(ServiceNotFound(s))
      case _ => None
  }

  /** The backend's state: the services of the cluster and the latest revision of every family. */
  datatype Backend = Backend(services: map<string, Service>, revisions: map<string, nat>)

  /**
   * What the backend does with a state-changing call: it answers with Rejection's error
   * and changes nothing, or it registers the next revision of the family, upserts the
   * service, deletes it, or sets its desired count.
   */
  function Perform(faults: map<Call, Error>, b: Backend, call: Call): (Backend, Option<Error>)
  {
    var err := Rejection(faults, b.services, call);
    if err.Some? then (b, err)
    else match call
      case RegisterTaskDefinitionCall(family, _) =>
        (b.(revisions := b.revisions[family := NextRevision(b.revisions, family)]), None)
      case CreateServiceCall(name, taskDefinition, desiredCount) =>
        (b.(services := b.services[name := Service(taskDefinition, desiredCount)]), None)
      case DeleteServiceCall(name) =>
        (b.(services := b.services - {name}), None)
      case UpdateServiceCall(name, desiredCount) =>
        (b.(services := b.services[name := b.services[name].(desiredCount := desiredCount)]), None)
  }

  /** The name of the service a call is about, or the family it registers. */
  function Target(call: Call): string
  {
    match call
    case RegisterTaskDefinitionCall(family, _) => family
    case CreateServiceCall(name, _, _) => name
    case DeleteServiceCall(name) => name
    case UpdateServiceCall(name, _) => name
  }

  /**
   * A call touches only its own target: every other service and every other family is
   * left as it was; a failed call changes nothing, and only a registration changes the
   * revisions.
   */
  lemma PerformLocal(faults: map<Call, Error>, b: Backend, call: Call)
    ensures var (after, err) := Perform(faults, b, call);
      && (err.Some? ==> after == b)
      && (forall n :: n != Target(call) ==> (n in after.services <==> n in b.services))
      && (forall n :: n != Target(call) && n in b.services ==> after.services[n] == b.services[n])
      && (!call.RegisterTaskDefinitionCall? ==> after.revisions == b.revisions)
      && (forall f :: f != Target(call) && f in b.revisions ==> f in after.revisions && after.revisions[f] == b.revisions[f])
  {
  }

  /**
   * What a successful call leaves behind: a registered family's revision is one past
   * its latest; a created service runs the given definition at the given count; a
   * deleted service is gone, and an updated one keeps its definition at the new count.
   */
  lemma PerformEffect(faults: map<Call, Error>, b: Backend, call: Call)
    requires Perform(faults, b, call).1.None?
    ensures var after := Perform(faults, b, call).0;
      match call
      case RegisterTaskDefinitionCall(family, _) =>
        family in after.revisions && after.revisions[family] == NextRevision(b.revisions, family)
      case CreateServiceCall(name, taskDefinition, desiredCount) =>
        name in after.services && after.services[name] == Service(taskDefinition, desiredCount)
      case DeleteServiceCall(name) =>
        name in b.services && name !in after.services
      case UpdateServiceCall(name, desiredCount) =>
        && name in b.services && name in after.services
        && after.services[name] == Service(b.services[name].taskDefinition, desiredCount)
  {
  }

  class Client {
    var services: map<string, Service>
    var revisions: map<string, nat>
    var log: seq<Call>

    const faults: map<Call, Error>
    const listing: Listing
    const listTasks: string -> Result<seq<string>, Error>
    const describeTasks: seq<string> -> Result<seq<DescribedTask>, Error>

    constructor (
      services: map<string, Service>,
      revisions: map<string, nat>,
      faults: map<Call, Error>,
      listing: Listing,
      listTasks: string -> Result<seq<string>, Error>,
      describeTasks: seq<string> -> Result<seq<DescribedTask>, Error>)
      ensures this.services == services && this.revisions == revisions && log == []
      ensures this.faults == faults && this.listing == listing
      ensures this.listTasks == listTasks && this.describeTasks == describeTasks
    {
      this.services := services;
      this.revisions := revisions;
      this.log := [];
      this.faults := faults;
      this.listing := listing;
      this.listTasks := listTasks;
      this.describeTasks := describeTasks;
    }

    function State(): Backend
      reads this
    {
      Backend(services, revisions)
    }

    /** Issues the call: it is logged, and the state changes as Perform says. */
    method Issue(call: Call) returns (err: Option<Error>)
      modifies this
      ensures log == old(log) + [call]
      ensures (State(), err) == Perform(faults, old(State()), call)
    {
      log := log + [call];
      var (after, e) := Perform(faults, State(), call);
      services, revisions, err := after.services, after.revisions, e;
    }

    /** Registers a new revision of the family. */
    method RegisterTaskDefinition(family: string, container: ContainerDefinition)
      returns (r: Result<TaskDefinition, Error>)
      modifies this
      ensures log == old(log) + [RegisterTaskDefinitionCall(family, container)]
      ensures (State(), if r.Failure? then Some(r.error) else None)
              == Perform(faults, old(State()), RegisterTaskDefinitionCall(family, container))
      ensures r.Success? ==> r.value == TaskDefinition(family, NextRevision(old(revisions), family))
    {
      var err := Issue(RegisterTaskDefinitionCall(family, container));
      if err.Some? {
        r := Failure(err.value);
      } else {
        r := Success(TaskDefinition(family, revisions[family]));
      }
    }

    /** Creates the service, or replaces one of the same name. */
    method CreateService(name: string, taskDefinition: string, desiredCount: int)
      returns (err: Option<Error>)
      modifies this
      ensures log == old(log) + [CreateServiceCall(name, taskDefinition, desiredCount)]
      ensures (State(), err) == Perform(faults, old(State()), CreateServiceCall(name, taskDefinition, desiredCount))
    {
      err := Issue(CreateServiceCall(name, taskDefinition, desiredCount));
    }

    /** Deletes the service; a missing service is an error. */
    method DeleteService(name: string) returns (err: Option<Error>)
      modifies this
      ensures log == old(log) + [DeleteServiceCall(name)]
      ensures (State(), err) == Perform(faults, old(State()), DeleteServiceCall(name))
    {
      err := Issue(DeleteServiceCall(name));
    }

    /** Sets the desired count of an existing service; a missing service is an error. */
    method UpdateService(name: string, desiredCount: int) returns (err: Option<Error>)
      modifies this
      ensures log == old(log) + [UpdateServiceCall(name, desiredCount)]
      ensures (State(), err) == Perform(faults, old(State()), UpdateServiceCall(name, desiredCount))
    {
      err := Issue(UpdateServiceCall(name, desiredCount));
    }
  }
}
