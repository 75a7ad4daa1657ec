/** The twelve-factor domain values the scheduler works on. */
module TwelveFactor {

  /** An application: processes sharing an image and a base environment. */
  datatype App = App(
    id: string,
    name: string,
    image: string,
    env: map<string, string>,
    processes: seq<Process>)

  /** One runnable role of an app. Memory is in bytes. */
  datatype Process = Process(
    name: string,
    command: seq<string>,
    env: map<string, string>,
    desiredCount: int,
    memory: int,
    cpuShares: int)

  /** A running or pending instance, as observed on the backend. */
  datatype Task = Task(id: string, state: string)

  /** Process names are unique within a sequence of processes. */
  ghost predicate UniqueNames(processes: seq<Process>)
  {
    forall i, j :: 0 <= i < j < |processes| ==> processes[i].name != processes[j].name
  }
}
