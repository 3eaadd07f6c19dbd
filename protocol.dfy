/** The settings message exchanged between a worker and the coordinator
    (the `BusyPySettings` message of the RPC surface). */
module Protocol {

  /** What the coordinator answers: the targets, whether the worker should
      exit, and whether the worker should apply them at all. */
  datatype Settings = Settings(cpuLoadPercent: int, memoryPercent: int, clientExit: bool, update: bool)
}
