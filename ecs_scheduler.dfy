/**
 * The ECS scheduler: runs and removes apps through the raw stack builder, scales one
 * process by updating the desired count of its service, and reports the tasks of an
 * app's services.
 */
module EcsScheduler {
  import opened Common
  import opened TwelveFactor
  import opened EcsApi
  import opened Raw

  const NotFoundSuffix: string := " process not found"

  /** The message of a ProcessNotFoundError: the process name, then " process not found". */
  function NotFoundMessage(process: string): (m: string)
    ensures |m| == |process| + |NotFoundSuffix|
    ensures m[..|process|] == process && m[|process|..] == NotFoundSuffix
  {
    process + NotFoundSuffix
  }

  /** Different processes give different messages: the message names its process. */
  lemma NotFoundMessageInjective(p: string, q: string)
    requires NotFoundMessage(p) == NotFoundMessage(q)
    ensures p == q
  {
    assert |p| == |q|;
    assert p == NotFoundMessage(p)[..|p|] == NotFoundMessage(q)[..|q|] == q;
  }

  lemma NotFoundMessageExample()
    ensures NotFoundMessage("web") == "web process not found"
  {
  }

  /**
   * The text an error reports: a ProcessNotFoundError gives its own message, and any other
   * failure its reason. The backend's text for a missing service is not modelled.
   */
  function Message(e: Error): (m: Option<string>)
    ensures m.None? <==> e.ServiceNotFound?
    ensures e.ProcessNotFound? ==> m == Some(NotFoundMessage(e.process))
  {
    match e
    case ProcessNotFound(process) => Some(NotFoundMessage(process))
    case ServiceNotFound(_) => None
    case Failed(reason) => Some(reason)
  }

  /**
   * Scaling `web` of an app without services: the app's listing yields no services, so
   * ScaleProcess answers ProcessNotFound("web"), whose text is "web process not found".
   */
  lemma ScaleProcessNotFoundExample(resourceId: ResourceIdParser)
    ensures ServicesOf(Listing([], None), "app", "", resourceId) == Success(map[])
    ensures "web" !in ServicesOf(Listing([], None), "app", "", resourceId).value
    ensures Message(ProcessNotFound("web")) == Some("web process not found")
  {
    NotFoundMessageExample();
  }

  /** The k-th described task is the first whose ARN has no resource id. */
  ghost predicate FirstUnresolved(described: seq<DescribedTask>, resourceId: ResourceIdParser, k: int)
  {
    && 0 <= k < |described|
    && resourceId(described[k].taskArn).Failure?
    && forall i :: 0 <= i < k ==> resourceId(described[i].taskArn).Success?
  }

  /**
   * The tasks of a description, in description order: the resource id of each task's
   * ARN and its last status verbatim. The first ARN without a resource id makes it an
   * error, and then no task is returned.
   */
  function ProjectTasks(described: seq<DescribedTask>, resourceId: ResourceIdParser): (r: Result<seq<Task>, Error>)
    ensures r.Success? <==> forall i :: 0 <= i < |described| ==> resourceId(described[i].taskArn).Success?
    ensures r.Success? ==> |r.value| == |described|
    ensures r.Success? ==> forall i :: 0 <= i < |described| ==>
      r.value[i] == Task(resourceId(described[i].taskArn).value, described[i].lastStatus)
    ensures r.Failure? ==> exists k :: FirstUnresolved(described, resourceId, k) && resourceId(described[k].taskArn) == Failure(r.error)
    decreases |described|
  {
    if described == [] then Success([])
    else
      var n := |described| - 1;
      var init := described[..n];
      assert forall i :: 0 <= i < n ==> init[i] == described[i];
      match ProjectTasks(init, resourceId)
      case Failure(e) =>
        assert forall k :: FirstUnresolved(init, resourceId, k) ==> FirstUnresolved(described, resourceId, k);
        Failure(e)
      case Success(tasks) =>
        match resourceId(described[n].taskArn)
        case Failure(e) =>
          assert FirstUnresolved(described, resourceId, n);
          Failure(e)
        case Success(id) => Success(tasks + [Task(id, described[n].lastStatus)])
  }

  /**
   * ServiceTasks's answer for one service: the listing error, or no tasks when nothing
   * is listed (and nothing is described), or the description error, or the projected tasks.
   */
  function ServiceTasksOf(listTasks: string -> Result<seq<string>, Error>,
                          describeTasks: seq<string> -> Result<seq<DescribedTask>, Error>,
                          resourceId: ResourceIdParser, service: string): (seq<Task>, Option<Error>)
  {
    match listTasks(service)
    case Failure(e) => ([], Some(e))
    case Success(arns) =>
      if arns == [] then ([], None)
      else
        match describeTasks(arns)
        case Failure(e) => ([], Some(e))
        case Success(described) =>
          match ProjectTasks(described, resourceId)
          case Failure(e) => ([], Some(e))
          case Success(tasks) => (tasks, None)
  }

  /**
   * An empty task listing answers no tasks and no error, whatever describing would
   * have answered: no description is asked for.
   */
  lemma NoTasksListed(listTasks: string -> Result<seq<string>, Error>,
                      describeTasks: seq<string> -> Result<seq<DescribedTask>, Error>,
                      resourceId: ResourceIdParser, service: string)
    requires listTasks(service) == Success([])
    ensures ServiceTasksOf(listTasks, describeTasks, resourceId, service) == ([], None)
  {
  }

  const TaskArn: string := "arn:aws:ecs:us-east-1:012345678910:task/0b69d5c0-d655-4695-98cd-5d2d526d9d5a"

  /** One listed, running task is answered with its id and its status. */
  lemma ServiceTasksExample(listTasks: string -> Result<seq<string>, Error>,
                            describeTasks: seq<string> -> Result<seq<DescribedTask>, Error>,
                            resourceId: ResourceIdParser)
    requires listTasks("app--web") == Success([TaskArn])
    requires describeTasks([TaskArn]) == Success([DescribedTask(TaskArn, "RUNNING")])
    requires resourceId(TaskArn) == Success("0b69d5c0-d655-4695-98cd-5d2d526d9d5a")
    ensures ServiceTasksOf(listTasks, describeTasks, resourceId, "app--web")
            == ([Task("0b69d5c0-d655-4695-98cd-5d2d526d9d5a", "RUNNING")], None)
  {
    var described := [DescribedTask(TaskArn, "RUNNING")];
    var task := Task("0b69d5c0-d655-4695-98cd-5d2d526d9d5a", "RUNNING");
    assert described[..0] == [];
    assert ProjectTasks(described, resourceId) == Success([] + [task]);
    assert [] + [task] == [task];
  }

  /** An error answers no tasks. */
  lemma ServiceTasksErrorIsEmpty(listTasks: string -> Result<seq<string>, Error>,
                                 describeTasks: seq<string> -> Result<seq<DescribedTask>, Error>,
                                 resourceId: ResourceIdParser, service: string)
    ensures ServiceTasksOf(listTasks, describeTasks, resourceId, service).1.Some? ==>
      ServiceTasksOf(listTasks, describeTasks, resourceId, service).0 == []
  {
  }

  /**
   * Tasks's answer over services in the given order: the tasks of each service appended
   * in turn; at the first failing service, the tasks gathered before it and its error.
   */
  function CollectTasks(listTasks: string -> Result<seq<string>, Error>,
                        describeTasks: seq<string> -> Result<seq<DescribedTask>, Error>,
                        resourceId: ResourceIdParser, services: seq<string>): (seq<Task>, Option<Error>)
    decreases |services|
  {
    if services == [] then ([], None)
    else
      var n := |services| - 1;
      var (tasks, err) := CollectTasks(listTasks, describeTasks, resourceId, services[..n]);
      if err.Some? then (tasks, err)
      else
        var (more, err') := ServiceTasksOf(listTasks, describeTasks, resourceId, services[n]);
        if err'.Some? then (tasks, err') else (tasks + more, None)
  }

  /**
   * Where Tasks stops: k is the first service whose tasks cannot be read (|services| when
   * there is none). Tasks fails exactly when there is one, and then answers the tasks of
   * the services before it with that service's error.
   */
  lemma {:induction false} CollectTasksFirstError(listTasks: string -> Result<seq<string>, Error>,
                                                  describeTasks: seq<string> -> Result<seq<DescribedTask>, Error>,
                                                  resourceId: ResourceIdParser, services: seq<string>) returns (k: nat)
    ensures k <= |services|
    ensures forall i :: 0 <= i < k ==> ServiceTasksOf(listTasks, describeTasks, resourceId, services[i]).1.None?
    ensures k < |services| ==> ServiceTasksOf(listTasks, describeTasks, resourceId, services[k]).1.Some?
    ensures CollectTasks(listTasks, describeTasks, resourceId, services).1.None? <==> k == |services|
    ensures k < |services| ==>
      CollectTasks(listTasks, describeTasks, resourceId, services) ==
        (CollectTasks(listTasks, describeTasks, resourceId, services[..k]).0,
         ServiceTasksOf(listTasks, describeTasks, resourceId, services[k]).1)
    decreases |services|
  {
    if services == [] {
      return 0;
    }
    var n := |services| - 1;
    var init := services[..n];
    k := CollectTasksFirstError(listTasks, describeTasks, resourceId, init);
    assert forall i :: 0 <= i < n ==> services[i] == init[i];
    if k == n {
      if ServiceTasksOf(listTasks, describeTasks, resourceId, services[n]).1.None? {
        k := n + 1;
      } else {
        assert services[..n] == init;
      }
    } else {
      assert services[..k] == init[..k];
    }
  }

  /**
   * The tasks of services that all answer are their tasks, appended in service order:
   * every task of the answer is a task of some service.
   */
  lemma {:induction false} CollectTasksFromServices(listTasks: string -> Result<seq<string>, Error>,
                                                    describeTasks: seq<string> -> Result<seq<DescribedTask>, Error>,
                                                    resourceId: ResourceIdParser, services: seq<string>, t: Task)
    requires t in CollectTasks(listTasks, describeTasks, resourceId, services).0
    ensures exists i :: 0 <= i < |services| && t in ServiceTasksOf(listTasks, describeTasks, resourceId, services[i]).0
    decreases |services|
  {
    var n := |services| - 1;
    var init := services[..n];
    var (tasks, err) := CollectTasks(listTasks, describeTasks, resourceId, init);
    if t in tasks {
      CollectTasksFromServices(listTasks, describeTasks, resourceId, init, t);
      var i :| 0 <= i < |init| && t in ServiceTasksOf(listTasks, describeTasks, resourceId, init[i]).0;
      assert init[i] == services[i];
    }
  }

  class Scheduler {
    const stackBuilder: StackBuilder

    constructor (stackBuilder: StackBuilder)
      ensures this.stackBuilder == stackBuilder
    {
      this.stackBuilder := stackBuilder;
    }

    /** Run: Build the processes; its result is Run's. */
    method Run(app: App, processes: seq<Process>) returns (err: Option<Error>, ghost environments: seq<seq<KeyValuePair>>)
      modifies stackBuilder.ecs
      ensures stackBuilder.EnvironmentsListed(app, processes, environments)
      ensures var o := stackBuilder.BuildOutcome(old(stackBuilder.ecs.State()), app, processes[..|environments|], environments);
        stackBuilder.ecs.State() == o.backend && stackBuilder.ecs.log == old(stackBuilder.ecs.log) + o.calls && err == o.err
      ensures err.None? ==> |environments| == |processes|
      ensures err.Some? ==>
        && 0 < |environments|
        && stackBuilder.BuildOutcome(old(stackBuilder.ecs.State()), app, processes[..|environments| - 1],
                                     environments[..|environments| - 1]).err.None?
    {
      err, environments := stackBuilder.Build(app, processes);
    }

    /** Remove: the stack builder's Remove; its result is Remove's. */
    method Remove(app: string) returns (err: Option<Error>, ghost order: seq<string>)
      modifies stackBuilder.ecs
      ensures var found := ServicesOf(stackBuilder.ecs.listing, app, stackBuilder.delimiter, stackBuilder.resourceId);
        found.Failure? ==>
          && err == Some(found.error) && order == []
          && stackBuilder.ecs.State() == old(stackBuilder.ecs.State()) && stackBuilder.ecs.log == old(stackBuilder.ecs.log)
      ensures var found := ServicesOf(stackBuilder.ecs.listing, app, stackBuilder.delimiter, stackBuilder.resourceId);
        found.Success? ==>
          && (var o := DeleteAll(stackBuilder.ecs.faults, old(stackBuilder.ecs.State()), order);
              stackBuilder.ecs.State() == o.backend && stackBuilder.ecs.log == old(stackBuilder.ecs.log) + o.calls && err == o.err)
          && Distinct(order)
          && (forall i :: 0 <= i < |order| ==> order[i] in found.value.Values)
          && (err.None? ==> forall s :: s in found.value.Values ==> s in order)
          && (err.Some? ==> order != [] && DeleteAll(stackBuilder.ecs.faults, old(stackBuilder.ecs.State()), order[..|order| - 1]).err.None?)
    {
      err, order := stackBuilder.Remove(app);
    }

    /**
     * ScaleProcess: find the process's service among the app's services and set its
     * desired count. A listing error is answered unchanged, and a process without a
     * service with ProcessNotFound; in both cases nothing is updated. Otherwise exactly
     * one update is issued, for that service and that count.
     */
    method ScaleProcess(app: string, process: string, desired: int) returns (err: Option<Error>)
      modifies stackBuilder.ecs
      ensures var found := ServicesOf(stackBuilder.ecs.listing, app, stackBuilder.delimiter, stackBuilder.resourceId);
        found.Failure? ==>
          err == Some(found.error) && stackBuilder.ecs.State() == old(stackBuilder.ecs.State())
          && stackBuilder.ecs.log == old(stackBuilder.ecs.log)
      ensures var found := ServicesOf(stackBuilder.ecs.listing, app, stackBuilder.delimiter, stackBuilder.resourceId);
        found.Success? && process !in found.value ==>
          err == Some(ProcessNotFound(process)) && stackBuilder.ecs.State() == old(stackBuilder.ecs.State())
          && stackBuilder.ecs.log == old(stackBuilder.ecs.log)
      ensures var found := ServicesOf(stackBuilder.ecs.listing, app, stackBuilder.delimiter, stackBuilder.resourceId);
        found.Success? && process in found.value ==>
          var call := UpdateServiceCall(found.value[process], desired);
          && stackBuilder.ecs.log == old(stackBuilder.ecs.log) + [call]
          && (stackBuilder.ecs.State(), err) == Perform(stackBuilder.ecs.faults, old(stackBuilder.ecs.State()), call)
    {
      var services := stackBuilder.Services(app);
      if services.Failure? {
        return Some(services.error);
      }
      if process !in services.value {
        return Some(ProcessNotFound(process));
      }
      err := stackBuilder.ecs.UpdateService(services.value[process], desired);
    }

    /** ServiceTasks: the tasks of one service, as ServiceTasksOf describes them. */
    method ServiceTasks(service: string) returns (tasks: seq<Task>, err: Option<Error>)
      ensures (tasks, err) ==
        ServiceTasksOf(stackBuilder.ecs.listTasks, stackBuilder.ecs.describeTasks, stackBuilder.resourceId, service)
    {
      var listed := stackBuilder.ecs.listTasks(service);
      if listed.Failure? {
        return [], Some(listed.error);
      }
      if |listed.value| == 0 {
        return [], None;
      }
      var described := stackBuilder.ecs.describeTasks(listed.value);
      if described.Failure? {
        return [], Some(described.error);
      }
      var all := described.value;
      tasks := [];
      var i := 0;
      while i < |all|
        invariant 0 <= i <= |all|
        invariant ProjectTasks(all[..i], stackBuilder.resourceId) == Success(tasks)
      {
        assert all[..i + 1][..i] == all[..i];
        var id := stackBuilder.resourceId(all[i].taskArn);
        if id.Failure? {
          assert FirstUnresolved(all, stackBuilder.resourceId, i) by {
            assert forall j :: 0 <= j < i ==> all[..i][j] == all[j];
          }
          return [], Some(id.error);
        }
        tasks := tasks + [Task(id.value, all[i].lastStatus)];
        i := i + 1;
      }
      assert all[..i] == all;
      err := None;
    }

    /**
     * Tasks: the tasks of every service of the app, appended service by service in the
     * (unspecified) iteration order of the mapping Services returns. On the first failing
     * service it answers the tasks gathered so far with that error. The ghost `order` is
     * the services visited.
     */
    method Tasks(app: string) returns (tasks: seq<Task>, err: Option<Error>, ghost order: seq<string>)
      ensures var found := ServicesOf(stackBuilder.ecs.listing, app, stackBuilder.delimiter, stackBuilder.resourceId);
        found.Failure? ==> tasks == [] && err == Some(found.error)
      ensures var found := ServicesOf(stackBuilder.ecs.listing, app, stackBuilder.delimiter, stackBuilder.resourceId);
        found.Success? ==>
          && Distinct(order)
          && (forall i :: 0 <= i < |order| ==> order[i] in found.value.Values)
          && (err.None? ==> forall s :: s in found.value.Values ==> s in order)
          && (tasks, err) == CollectTasks(stackBuilder.ecs.listTasks, stackBuilder.ecs.describeTasks, stackBuilder.resourceId, order)
          && (err.Some? ==>
                && order != []
                && CollectTasks(stackBuilder.ecs.listTasks, stackBuilder.ecs.describeTasks, stackBuilder.resourceId, order[..|order| - 1]).1.None?)
    {
      var found := stackBuilder.Services(app);
      if found.Failure? {
        return [], Some(found.error), [];
      }
      tasks, order := [], [];
      var pending := found.value.Values;
      while pending != {}
        invariant pending <= found.value.Values
        invariant forall s :: s in order <==> s in found.value.Values && s !in pending
        invariant Distinct(order)
        invariant (tasks, None) == CollectTasks(stackBuilder.ecs.listTasks, stackBuilder.ecs.describeTasks, stackBuilder.resourceId, order)
        decreases |pending|
      {
        var service :| service in pending;
        ghost var previous := order;
        var serviceTasks, e := ServiceTasks(service);
        order := order + [service];
        assert order[..|order| - 1] == previous;
        if e.Some? {
          return tasks, e, order;
        }
        tasks := tasks + serviceTasks;
        pending := pending - {service};
      }
      err := None;
    }
  }
}
