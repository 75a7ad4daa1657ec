# ECS scheduler of 12factor, modelled in Dafny

This project models the layer of the 12factor scheduler that turns twelve-factor apps into
ECS services. It has two parts.

The raw stack builder (`scheduler/ecs/builders/raw/raw.go`) does four things:

- It names each service and task-definition family `app + delimiter + process`. The
  delimiter defaults to `--`.
- It reads names back by cutting at the first occurrence of the delimiter.
- It lists an app's services by scanning the paged, cluster-wide service listing.
- Build registers a task definition per process and creates that process's service.
  Remove deletes the app's services. Both stop at the first backend error.

The scheduler (`scheduler/ecs/ecs.go`) runs and removes apps through the stack builder. It
scales one process by updating its service's desired count. It reports the tasks of an
app's services.

Modules:

- `Common`: Option, Result and the error values.
- `TwelveFactor`: App, Process and Task.
- `Decimal`: the `%d` rendering of a revision number.
- `NameCodec`: `delimiter`, the name join and `split`.
- `EcsApi`: the backend.
- `Raw`: the stack builder.
- `EcsScheduler`: the scheduler.

The backend is a `Client` object. It holds the services of the cluster, the latest revision
of each task-definition family, and the log of state-changing calls.

- A state-changing call changes that state as `EcsApi.Perform` says.
- Which calls fail is fixed by a `faults` map.
- The read-only calls are fixed responses: the service listing (its pages, and the error
  reported after the last page), task listing and task description.
- Resource-id extraction from an ARN, the byte size of a megabyte, and the environment merge
  are parameters of the stack builder.

Each imperative operation is a method over this state. Its postcondition ties the new state,
the call log and the result to a function of the old state: `ServicesOf`, `CreateOutcome`,
`BuildOutcome`, `DeleteAll`, `ServiceTasksOf` or `CollectTasks`. The lemmas then prove what
those functions guarantee.

Go's map iteration order (the environment list, the services Remove deletes, the services
Tasks reads) is an arbitrary choice. The order actually taken is returned as a ghost output,
and the contracts hold for every such order.

One might expect decoding an encoded name to give back the pair whenever the app holds no
delimiter. It does not: with the default delimiter, an app ending in `-` loses that `-` to
the process name (`a-`/`web` becomes `a---web`, which reads back as `a`/`-web`).
`NameCodec.SplitJoin` states the exact condition. `NameCodec.SplitJoinDefault` states it for `--`.

## Model

| member | source | states |
|---|---|---|
| NameCodec.Delimiter | scheduler/ecs/builders/raw/raw.go:174-180 | the delimiter in effect is never empty; it is the configured one when that is non-empty, `--` otherwise |
| NameCodec.JoinInjective | scheduler/ecs/builders/raw/raw.go:55 | names joined for one app are equal only when their process names are equal |
| NameCodec.Index | scheduler/ecs/builders/raw/raw.go:166 | the first occurrence of the delimiter: none exactly when it does not occur, and no occurrence starts before the one returned |
| NameCodec.Split | scheduler/ecs/builders/raw/raw.go:165-172 | split fails exactly when the delimiter does not occur; otherwise app + delimiter + process is the name, the app half holds no delimiter, and no occurrence of the delimiter starts inside the app half, so the cut is at the first occurrence |
| NameCodec.SplitJoin | scheduler/ecs/builders/raw/raw.go:165-172 | decoding an encoded name gives back the pair if and only if the delimiter does not occur in the app followed by all but the last character of the delimiter |
| NameCodec.RoundTrip | scheduler/ecs/builders/raw/raw.go:165-172 | under that condition the pair is read back unchanged |
| NameCodec.SplitJoinHazard | scheduler/ecs/builders/raw/raw.go:166-170 | an app holding the delimiter is cut at its first occurrence, and the rest of the app moves into the process name |
| NameCodec.SplitJoinDefault | scheduler/ecs/builders/raw/raw.go:165-180 | with the default `--`, the round trip holds exactly when the app has no `--` and does not end with `-` |
| NameCodec.DelimiterInAppShiftsBoundary | scheduler/ecs/builders/raw/raw.go:166-170 | app `a--b` with process `web` reads back as app `a`, process `b--web` |
| NameCodec.TrailingDashBreaksRoundTrip | scheduler/ecs/builders/raw/raw.go:166-170 | app `a-` holds no `--`, yet with process `web` it reads back as app `a`, process `-web` |
| Decimal.Format | scheduler/ecs/builders/raw/raw.go:107 | a revision prints as a non-empty string of decimal digits without a leading zero |
| Decimal.ParseFormat | scheduler/ecs/builders/raw/raw.go:107 | reading the printed digits back gives the revision |
| Decimal.FormatInjective | scheduler/ecs/builders/raw/raw.go:107 | different revisions print differently |
| Decimal.FormatParse | scheduler/ecs/builders/raw/raw.go:107 | every digit string without a leading zero is the printing of its value |
| EcsApi.PerformLocal | scheduler/ecs/ecs.go:79-84 | a backend call changes only its own service or family; a failed call changes nothing, and only a registration changes revisions |
| EcsApi.PerformEffect | scheduler/ecs/ecs.go:79-84 | after a successful call the family has its next revision, or the created service runs the given definition at the given count, or the deleted service is gone, or the updated service keeps its definition at the new count |
| Raw.ScanPagesFlatten | scheduler/ecs/builders/raw/raw.go:134-157 | the paged scan equals one scan of all entries of all pages in order, so page boundaries do not matter |
| Raw.ScanPageEncoded | scheduler/ecs/builders/raw/raw.go:147-154 | every process the scan records maps to the name app + delimiter + process |
| Raw.ScanPageKeys | scheduler/ecs/builders/raw/raw.go:137-155 | the scan never drops a process; every process it adds comes from an entry decoding to that app and process; when every entry resolves it runs to the end and records every such process |
| Raw.ServicesEncoded | scheduler/ecs/builders/raw/raw.go:147-154 | every service Services returns is named app + delimiter + its process |
| Raw.EncodedInjective | scheduler/ecs/builders/raw/raw.go:153 | no two processes of the result share a service name |
| Raw.ServicesSound | scheduler/ecs/builders/raw/raw.go:137-155 | every process returned comes from some entry of some page that decodes to the app and that process |
| Raw.ServicesComplete | scheduler/ecs/builders/raw/raw.go:132-162 | when every entry resolves, a listing error is returned as is; otherwise every entry of the app, on any page, is in the result |
| Raw.ServicesStopAtUnresolvable | scheduler/ecs/builders/raw/raw.go:142-145 | an entry with no resource id ends the scan without an error; the result is what the entries before it gave, even when a later page would have failed |
| Raw.VisitServiceOfApp | scheduler/ecs/builders/raw/raw.go:147-154 | the ARN of app `app`'s service for a process records that process with its service name |
| Raw.ServicesDirtyExample | scheduler/ecs/builders/raw/raw_test.go:64-87 | entries `app`, `app--web` and nil give exactly `{web: app--web}` with no error |
| Raw.ServicesPaginationExample | scheduler/ecs/builders/raw/raw_test.go:35-62 | `app--web` on one page and `app--worker` on the next give both processes |
| Raw.TruncDivTruncates | scheduler/ecs/builders/raw/raw.go:98 | for non-negative memory, the megabytes are the number of whole megabytes it holds |
| Raw.TruncDivOdd | scheduler/ecs/builders/raw/raw.go:98 | the division rounds toward zero: negating the bytes negates the megabytes |
| Raw.TruncDivExamples | scheduler/ecs/builders/raw/raw.go:98 | 7 / 2 is 3 and -7 / 2 is -3, as in Go |
| Raw.ColonIsLast | scheduler/ecs/builders/raw/raw.go:107 | the colon before the revision is the last colon of the reference |
| Raw.RefersToRevision | scheduler/ecs/builders/raw/raw.go:107 | a string is the reference to some revision of a family exactly when it is the family, a colon and a decimal numeral without a leading zero |
| Raw.TaskDefinitionRefInjective | scheduler/ecs/builders/raw/raw.go:107 | a "family:revision" reference determines its family and its revision |
| Raw.ListsExactlyAsMap | scheduler/ecs/builders/raw/raw.go:81-87 | an environment list built from the merged map has one pair per variable and reads back as that map |
| Raw.AsMapListsExactly | scheduler/ecs/builders/raw/raw.go:81-87 | conversely, a list that reads back as the map and has one pair per variable lists it exactly |
| Raw.ListedOnce | scheduler/ecs/builders/raw/raw.go:81-87 | each variable appears once in the list, with the value the map gives it |
| Raw.EnvironmentPairs | scheduler/ecs/builders/raw/raw.go:81-87 | the loop over the merged map lists every variable exactly once with its value, in whatever order the map yields |
| Raw.DeleteAllSnoc | scheduler/ecs/builders/raw/raw.go:117-124 | one more delete after successful deletes appends its call and applies it to the state reached |
| Raw.DeleteAllSpec | scheduler/ecs/builders/raw/raw.go:117-126 | deleting distinct names issues one delete per name in order, never more; it succeeds exactly when every name is a live service whose delete does not fail, and then exactly those services are gone |
| Raw.DeleteAllFails | scheduler/ecs/builders/raw/raw.go:117-124 | a failed run stops at the first failing delete: the deletes before it all succeed, it is the last call issued, and its answer is the run's state and error |
| Raw.DeleteAllFailureState | scheduler/ecs/builders/raw/raw.go:117-124 | after a failed run of distinct deletes, exactly the services named before the failing delete are gone, everything else is untouched, and the error is the backend's answer to that delete |
| Raw.StackBuilder.CreateOutcomeSpec | scheduler/ecs/builders/raw/raw.go:54-70 | the registration is issued first; a faulted registration is the only call and its error is returned; otherwise the creation follows and the backend's answer to it is returned; a failure leaves the services unchanged; on success the service runs exactly the new "family:revision" at the process's count; a registration that is not faulted consumes a revision even when the creation then fails, and a faulted one leaves the revisions as they were |
| Raw.StackBuilder.BuildOutcomeSnoc | scheduler/ecs/builders/raw/raw.go:44-48 | after successful processes, one more process adds its calls and its effect to the outcome so far |
| Raw.StackBuilder.BuildOutcomeStops | scheduler/ecs/builders/raw/raw.go:44-48 | once a process fails, the later processes make no difference: no later call is issued |
| Raw.StackBuilder.DesiredUnique | scheduler/ecs/builders/raw/raw.go:55 | with unique process names, each process's service is wanted at that process's count |
| Raw.StackBuilder.BuildConverges | scheduler/ecs/builders/raw/raw.go:43-51 | on failure the returned index is the first failing process: the processes before it build without error and adding it fails; those processes (all of them on success) end up with their services at the requested counts; every other service is unchanged, and none disappears |
| Raw.StackBuilder.BuildSucceeds | scheduler/ecs/builders/raw/raw.go:43-51 | with unique process names, a successful Build leaves every process's service at its count |
| Raw.StackBuilder.Services | scheduler/ecs/builders/raw/raw.go:131-163 | the paged loop computes ServicesOf: the listing error, or the process-to-service mapping of the app, each service named app + delimiter + process |
| Raw.StackBuilder.RegisterTaskDefinition | scheduler/ecs/builders/raw/raw.go:72-108 | issues exactly one registration with the process's name, CPU shares, command, the app's image, truncated megabytes and the merged environment listed once per variable; on success answers "family:revision" for the new revision |
| Raw.StackBuilder.CreateService | scheduler/ecs/builders/raw/raw.go:54-70 | the state, the call log and the error are CreateOutcome's: a registration, then a creation on the returned reference unless the registration failed |
| Raw.StackBuilder.Build | scheduler/ecs/builders/raw/raw.go:43-51 | CreateService for each process in order, stopping at the first error; on success every process was handled, on failure the processes before the failing one all succeeded |
| Raw.StackBuilder.DeleteEach | scheduler/ecs/builders/raw/raw.go:117-124 | deletes each given service once in some order, stopping at the first error; with no error every service was deleted |
| Raw.StackBuilder.Remove | scheduler/ecs/builders/raw/raw.go:111-127 | a Services error is returned with no delete issued; otherwise one delete per service of the app, in some order, up to the first failing delete, with that delete's error |
| EcsScheduler.NotFoundMessage | scheduler/ecs/ecs.go:21-23 | the message is the process name followed by " process not found" |
| EcsScheduler.NotFoundMessageInjective | scheduler/ecs/ecs.go:21-23 | the message determines the process it names |
| EcsScheduler.NotFoundMessageExample | scheduler/ecs/ecs_test.go:57-69 | process `web` gives "web process not found" |
| EcsScheduler.Message | scheduler/ecs/ecs.go:21-23 | the text of a ProcessNotFound error is its process's not-found message; every error but a missing service has a text |
| EcsScheduler.ScaleProcessNotFoundExample | scheduler/ecs/ecs_test.go:57-69 | an app with no services has no `web`, so ScaleProcess answers ProcessNotFound("web"), whose text is "web process not found" |
| EcsScheduler.ProjectTasks | scheduler/ecs/ecs.go:129-142 | succeeds exactly when every described ARN has a resource id, giving one task per description in order with that id and the last status verbatim; otherwise the error of the first ARN without one |
| EcsScheduler.NoTasksListed | scheduler/ecs/ecs.go:116-119 | an empty task listing answers no tasks and no error, whatever a description would have answered |
| EcsScheduler.ServiceTasksExample | scheduler/ecs/ecs_test.go:71-112 | one listed task described as RUNNING gives one task with its id and state RUNNING |
| EcsScheduler.ServiceTasksErrorIsEmpty | scheduler/ecs/ecs.go:112-133 | whenever ServiceTasks fails it answers no tasks |
| EcsScheduler.CollectTasksFirstError | scheduler/ecs/ecs.go:94-103 | Tasks fails exactly when some service fails; it then answers the tasks of the services before the first failing one, with that service's error |
| EcsScheduler.CollectTasksFromServices | scheduler/ecs/ecs.go:94-103 | every task answered is a task of one of the services |
| EcsScheduler.Scheduler.Run | scheduler/ecs/ecs.go:57-59 | Run's effect and result are Build's |
| EcsScheduler.Scheduler.Remove | scheduler/ecs/ecs.go:62-64 | Remove's effect and result are the stack builder's Remove |
| EcsScheduler.Scheduler.ScaleProcess | scheduler/ecs/ecs.go:68-85 | a Services error is returned unchanged and a missing process gives ProcessNotFound, both with no call issued; otherwise exactly one update, of that process's service to the desired count |
| EcsScheduler.Scheduler.ServiceTasks | scheduler/ecs/ecs.go:107-143 | the listing error, or no tasks for an empty listing, or the description error, or the projected tasks of the description in order |
| EcsScheduler.Scheduler.Tasks | scheduler/ecs/ecs.go:88-104 | a Services error gives no tasks; otherwise each service of the app is visited once in some order, and the answer is the concatenation of their tasks, or, at the first failing service, the tasks gathered before it with its error |

## Left out

- `Listing.err` follows the AWS SDK paginator: when the callback stops early, no later page is fetched, so a later page's error is not reported. The Go code of this layer does not show this; its test mock returns its error even after an early stop. `Raw.ServicesStopAtUnresolvable` relies on it.
- The AWS SDK calls are not code of this layer. They are modelled by the backend state, the `faults` map and fixed read responses, not by network requests.
- The service listing (`EcsApi.Client.listing`) is a fixed response that is independent of the backend's `services`. Services, ScaleProcess, Remove and Tasks all see the same pages.
  - Services created by Build, or deleted by Remove, do not appear in or vanish from the listing.
  - The listing may name services the backend does not hold, so ScaleProcess or Remove on a listed process can fail with ServiceNotFound.
  - So the life cycle of one process's service across calls (absent after Remove, present after Run) is not stated. Concurrent changes to the cluster are not modelled either.
- ListTasks and DescribeTasks are read-only calls and are not in the call log. `EcsScheduler.NoTasksListed` captures that no description is needed for an empty listing.
- EcsApi.Perform: a create that is not faulted always replaces an existing service of the same name (an upsert). The Go code does not decide whether the backend upserts or fails in that case. Faults are fixed per call, not per backend state, so "fail when it exists" cannot be expressed. `Raw.StackBuilder.BuildConverges` relies on the upsert whenever a service name already exists.
- The scheduler's own backend client and cluster (`s.ecs`, `s.Cluster` in `scheduler/ecs/ecs.go`) are modelled as the stack builder's client `stackBuilder.ecs`. Both are taken to talk to the same cluster.
- The Cluster, ServiceRole and Essential fields are pass-through constants with no logic. They are not part of the requests modelled.
- `arn.ResourceID`, `bytesize.MB` and `twelvefactor.MergeEnv` are parameters (`resourceId`, `mb`, `mergeEnv`). Their code is not part of this model.
- Raw.StackBuilder.RegisterTaskDefinition: the `int` to `int64` conversions of memory and CPU shares (`scheduler/ecs/builders/raw/raw.go:94-98`) are the identity here. Integers are unbounded, so 64-bit overflow is not modelled.
- Raw.StackBuilder.CreateService and EcsScheduler.Scheduler.ScaleProcess: the `int` to `int64` conversion of the desired count (`scheduler/ecs/builders/raw/raw.go:64`, `scheduler/ecs/ecs.go:81`) is the identity here, for the same reason.
- NameCodec.Index and NameCodec.Split: Go's `strings.Index` and `strings.SplitN` work on bytes, while the model works on characters. The two agree for valid UTF-8 names and a non-empty delimiter; byte offsets are not modelled.
- Nil pointers in backend responses (a task without an ARN or status, a registration answer without a family) would make the Go code panic. Responses here always carry their fields.
- The ghost outputs `environment`, `environments` and `order` name the choices made while iterating Go maps. The contracts hold for any such order, but do not say which order the Go runtime picks.
- `NewScheduler`, `NewStackBuilder` and `StopTask` only build clients or are declared without code.
- The older `schedulers/ecs` package, and the interface files `scheduler.go` and `scheduler/ecs/stack.go`, hold no logic of this layer.
- The domain types follow the fields raw.go uses: a command is a list of words and memory is in bytes. They do not follow twelvefactor.go's `Command string` and `MemoryLimit`. Labels and stdio markers play no part here.
