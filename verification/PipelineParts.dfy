/// The sequential parts of the logging pipeline: a worker's queue and task list, the vote counts, and a log.

module PipelineParts {
  import opened Pipeline

  datatype Option<T> = None | Some(value: T)

  /** `WorkerInfo`. Its two mutexes make each method atomic. */
  class WorkerInfo {
    var xactQ: seq<Xact>
    var taskList: seq<Entry>

    constructor ()
      ensures xactQ == [] && taskList == []
    {
      xactQ, taskList := [], [];
    }

    method XactEnqueue(tx: Xact)
      modifies this`xactQ
      ensures xactQ == old(xactQ) + [tx]
    {
      xactQ := xactQ + [tx];
    }

    /** The oldest transfer, or none when the queue is empty. */
    method XactDequeue() returns (tx: Option<Xact>)
      modifies this`xactQ
      ensures old(xactQ) == [] ==> tx.None? && xactQ == []
      ensures old(xactQ) != [] ==> tx.Some? && old(xactQ) == [tx.value] + xactQ
    {
      if xactQ == [] {
        return None;
      }
      tx := Some(xactQ[0]);
      xactQ := xactQ[1..];
    }

    method TaskStore(t: Entry)
      modifies this`taskList
      ensures taskList == old(taskList) + [t]
    {
      taskList := taskList + [t];
    }

    /** Takes the first task with the log sequence number out of the list, if there is one. */
    method TaskLoad(lsn: nat) returns (t: Option<Entry>)
      modifies this`taskList
      ensures t.None? ==> taskList == old(taskList) && forall j :: 0 <= j < |taskList| ==> taskList[j].lsn != lsn
      ensures t.Some? ==> t.value.lsn == lsn
      ensures t.Some? ==> Extracted(old(taskList), FindTask(old(taskList), lsn), t.value, taskList)
    {
      for i := 0 to |taskList|
        invariant taskList == old(taskList) && forall j :: 0 <= j < i ==> taskList[j].lsn != lsn
      {
        if taskList[i].lsn == lsn {
          t := Some(taskList[i]);
          taskList := taskList[..i] + taskList[i + 1..];
          assert FindTask(old(taskList), lsn) == i;
          return;
        }
      }
      t := None;
    }
  }

  /** `t` was the first task with its number, at position `i`, and is gone. */
  ghost predicate Extracted(tasks: seq<Entry>, i: nat, t: Entry, tasks': seq<Entry>) {
    && i < |tasks| && tasks[i] == t && tasks' == tasks[..i] + tasks[i + 1..]
    && forall j :: 0 <= j < i ==> tasks[j].lsn != t.lsn
  }

  /** The vote counts of `Status`, under its mutex. */
  class Status {
    var votes: map<nat, nat>

    constructor ()
      ensures votes == map[]
    {
      votes := map[];
    }

    method AddVoteCount(index: nat) returns (count: nat)
      modifies this
      ensures count == Count(old(votes), index) + 1 && votes == old(votes)[index := count]
    {
      if index !in votes {
        votes := votes[index := 1];
      } else {
        votes := votes[index := votes[index] + 1];
      }
      count := votes[index];
    }
  }

  datatype Record = Record(entry: Entry, term: int)

  function Entries(records: seq<Record>): (r: seq<Entry>)
    ensures |r| == |records|
  {
    seq(|records|, i requires 0 <= i < |records| => records[i].entry)
  }

  /** `Log`: append-only. */
  class Log {
    var records: seq<Record>

    constructor ()
      ensures records == []
    {
      records := [];
    }

    method AddEntry(e: Entry, term: int)
      modifies this
      ensures records == old(records) + [Record(e, term)] && Entries(records) == Entries(old(records)) + [e]
    {
      records := records + [Record(e, term)];
    }

    /** The index of the newest entry, or -1. */
    function LastLogIndex(): (i: int)
      reads this
      ensures i == -1 <==> records == []
      ensures i != -1 ==> 0 <= i < |records| && records == records[..i] + [records[i]]
    {
      |records| - 1
    }

    /** The term of an entry, or -1 where there is none. */
    function GetTerm(index: int): (term: int)
      reads this
      ensures 0 <= index < |records| ==> Record(records[index].entry, term) == records[index]
      ensures !(0 <= index < |records|) ==> term == -1
    {
      if index < 0 then -1 else if index > LastLogIndex() then -1 else records[index].term
    }

    /** Whether the entry at an index has a term. Before the first index every term matches, and past the end
        only the term -1 that `GetTerm` gives there. */
    function Match(prevLogIndex: int, prevTerm: int): (b: bool)
      reads this
      ensures prevLogIndex < 0 ==> b
      ensures 0 <= prevLogIndex < |records| ==> (b <==> records[prevLogIndex].term == prevTerm)
      ensures |records| <= prevLogIndex ==> (b <==> prevTerm == -1)
    {
      prevLogIndex < 0 || prevTerm == GetTerm(prevLogIndex)
    }
  }
}
