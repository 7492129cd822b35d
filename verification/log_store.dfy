/** The Raft log: a list of entries addressed from index 1. */
module RaftLog {
  import opened Wrappers
  import opened KeyValue

  datatype LogEntry = LogEntry(term: nat, command: Command)

  type Log = seq<LogEntry>

  function LastTerm(log: Log): nat {
    if log == [] then 0 else log[|log| - 1].term
  }

  /** The term at a 1-based index; index 0 stands before the log and has term 0. */
  function TermAt(log: Log, index: nat): nat
    requires index <= |log|
  {
    if index == 0 then 0 else log[index - 1].term
  }

  function EntriesFrom(log: Log, index: int): Log {
    var from := if index < 1 then 1 else index;
    if from > |log| then [] else log[from - 1..]
  }

  /** The key/value map after applying the commands of a log in order to the empty map. */
  function Replay(log: Log): Values {
    if log == [] then map[]
    else Applied(Replay(log[..|log| - 1]), log[|log| - 1].command).0
  }

  class LogStore {
    var entries: Log

    constructor ()
      ensures entries == []
    {
      entries := [];
    }

    method Append(entry: LogEntry) returns (index: nat)
      modifies this
      ensures entries == old(entries) + [entry]
      ensures index == |entries|
    {
      entries := entries + [entry];
      index := |entries|;
    }

    /** `None` is the source's IndexOutOfBoundsException. */
    method Get(index: int) returns (r: Option<LogEntry>)
      ensures r == if 1 <= index <= |entries| then Some(entries[index - 1]) else None
    {
      if index < 1 || index > |entries| {
        r := None;
      } else {
        r := Some(entries[index - 1]);
      }
    }

    method LastIndex() returns (r: nat)
      ensures r == |entries|
    {
      r := |entries|;
    }

    method GetLastTerm() returns (r: nat)
      ensures r == LastTerm(entries)
    {
      r := if entries == [] then 0 else entries[|entries| - 1].term;
    }

    method GetEntriesFrom(index: int) returns (r: Log)
      ensures r == EntriesFrom(entries, index)
    {
      var from := index;
      if from < 1 {
        from := 1;
      }
      if from > |entries| {
        return [];
      }
      r := entries[from - 1..|entries|];
    }

    /** Below index 1 the source would go on to remove from an empty list, which throws. */
    method TruncateFrom(index: nat)
      requires index >= 1
      modifies this
      ensures entries == if index <= |old(entries)| then old(entries)[..index - 1] else old(entries)
    {
      while |entries| >= index
        invariant |entries| <= |old(entries)|
        invariant entries == old(entries)[..|entries|]
        invariant index <= |old(entries)| ==> index - 1 <= |entries|
        invariant index > |old(entries)| ==> entries == old(entries)
        decreases |entries|
      {
        entries := entries[..|entries| - 1];
      }
    }
  }
}
