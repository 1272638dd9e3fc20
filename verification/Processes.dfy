/** Engine processes and the launcher that keeps track of every one it started. */
module Processes {
  import opened Wrappers

  /** A launched engine; once it has exited it never runs again. */
  class ProcessHandle {
    var running: bool

    constructor ()
      ensures running
    {
      running := true;
    }

    /** The engine dies of its own accord. */
    method Exit()
      modifies this
      ensures !running
    {
      running := false;
    }

    /** SIGTERM, wait, then SIGKILL: the process is gone afterwards. */
    method Terminate()
      modifies this
      ensures !running
    {
      running := false;
    }
  }

  /** Those of `procs` that are alive. */
  ghost function Running(procs: set<ProcessHandle>): set<ProcessHandle>
    reads procs
  {
    set p | p in procs && p.running
  }

  class LocalLauncher {
    var processes: seq<ProcessHandle>
    ghost var launched: set<ProcessHandle>  // every process ever started

    /** Nothing that runs is untracked. */
    ghost predicate Valid()
      reads this, launched
    {
      && (forall p :: p in processes ==> p in launched)
      && (forall p :: p in launched && p.running ==> p in processes)
    }

    constructor ()
      ensures Valid() && processes == [] && launched == {}
    {
      processes, launched := [], {};
    }

    /** Starting may fail before there is a process. */
    method Launch(starts: bool) returns (r: Option<ProcessHandle>)
      requires Valid()
      modifies this
      ensures Valid()
      ensures r.Some? <==> starts
      ensures r.None? ==> launched == old(launched) && processes == old(processes)
      ensures r.Some? ==>
        && fresh(r.value) && r.value.running
        && launched == old(launched) + {r.value} && processes == old(processes) + [r.value]
        && Running(launched) == old(Running(launched)) + {r.value}
    {
      if !starts {
        return None;
      }
      var p := new ProcessHandle();
      processes := processes + [p];
      launched := launched + {p};
      r := Some(p);
    }

    /** Terminates everything tracked, so nothing ever launched is left running. */
    method ShutdownAll()
      requires Valid()
      modifies this, launched
      ensures Valid()
      ensures launched == old(launched) && processes == [] && Running(launched) == {}
    {
      var procs := processes;
      processes := [];
      TerminateAll(procs, launched);
    }
  }

  /** `gather(*(p.terminate() for p in procs))`; of `others`, only these stop. */
  method TerminateAll(procs: seq<ProcessHandle>, ghost others: set<ProcessHandle>)
    modifies procs
    ensures forall p :: p in procs ==> !p.running
    ensures Running(others) == old(Running(others)) - set p | p in procs
  {
    for i := 0 to |procs|
      invariant forall j :: 0 <= j < i ==> !procs[j].running
      invariant forall p :: p in others && p !in procs ==> p.running == old(p.running)
      invariant forall p :: p in others && p.running ==> old(p.running)
    {
      procs[i].Terminate();
    }
  }
}
