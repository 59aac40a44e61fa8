/** The server's bounded in-memory log (LogBuffer in Server/main.go).
    Timestamps are integers supplied by the caller in place of the clock. */
module ServerLog {
  import opened Collections

  datatype LogEntry = LogEntry(timestamp: int, message: string, level: string)

  /** The entries of `entries` strictly after `since`, in buffer order. */
  function After(entries: seq<LogEntry>, since: int): seq<LogEntry> {
    if entries == [] then []
    else After(entries[..|entries| - 1], since) +
         (if entries[|entries| - 1].timestamp > since then [entries[|entries| - 1]] else [])
  }

  /** After keeps exactly the entries later than `since`. */
  lemma {:induction false} AfterMembers(entries: seq<LogEntry>, since: int)
    ensures forall e :: e in After(entries, since) <==> e in entries && e.timestamp > since
    ensures |After(entries, since)| <= |entries|
  {
    if entries != [] {
      var init := entries[..|entries| - 1];
      AfterMembers(init, since);
      assert entries == init + [entries[|entries| - 1]];
    }
  }

  /** After works piece by piece, so it keeps the buffer's order: whatever it
      keeps from an earlier stretch comes before whatever it keeps from a
      later one. */
  lemma {:induction false} AfterDistributes(a: seq<LogEntry>, b: seq<LogEntry>, since: int)
    ensures After(a + b, since) == After(a, since) + After(b, since)
    decreases |b|
  {
    if b == [] {
      assert a + b == a;
    } else {
      var n := |b| - 1;
      AfterDistributes(a, b[..n], since);
      assert (a + b)[..|a + b| - 1] == a + b[..n];
      assert (a + b)[|a + b| - 1] == b[n];
    }
  }

  /** Asking again with a later cut-off gives the same as asking once with it. */
  lemma {:induction false} AfterNarrows(entries: seq<LogEntry>, since1: int, since2: int)
    requires since1 <= since2
    ensures After(After(entries, since1), since2) == After(entries, since2)
  {
    if entries != [] {
      var n := |entries| - 1;
      AfterNarrows(entries[..n], since1, since2);
      var last := entries[n];
      var tail := if last.timestamp > since1 then [last] else [];
      AfterDistributes(After(entries[..n], since1), tail, since2);
      if last.timestamp > since1 {
        assert After(tail, since2) == After([], since2) + (if last.timestamp > since2 then [last] else []);
      }
    }
  }

  class LogBuffer {
    var entries: seq<LogEntry>
    const maxSize: int
    /** Every entry ever added, oldest first. */
    ghost var history: seq<LogEntry>

    /** The buffer holds exactly the newest maxSize entries of its history. */
    ghost predicate Valid()
      reads this
    {
      maxSize > 0 && entries == Last(history, maxSize)
    }

    /** NewLogBuffer. */
    constructor (maxSize: int)
      requires maxSize > 0
      ensures Valid() && this.maxSize == maxSize
      ensures entries == [] && history == []
    {
      this.maxSize := maxSize;
      entries := [];
      history := [];
    }

    /** Add: drops the oldest entry when full, then appends the new one. */
    method Add(level: string, message: string, now: int)
      requires Valid()
      modifies this
      ensures Valid()
      ensures history == old(history) + [LogEntry(now, message, level)]
      ensures entries == (if |old(entries)| >= maxSize then old(entries)[1..] else old(entries)) +
                         [LogEntry(now, message, level)]
      ensures |entries| <= maxSize
      ensures entries[|entries| - 1] == LogEntry(now, message, level)
    {
      var entry := LogEntry(now, message, level);
      LastSlide(entries, entry, maxSize);
      LastOfAppend(history, entry, maxSize);
      if |entries| >= maxSize {
        entries := entries[1..];
      }
      entries := entries + [entry];
      history := history + [entry];
    }

    /** GetAll: a copy of the entries, oldest first. */
    method GetAll() returns (result: seq<LogEntry>)
      requires Valid()
      ensures result == entries
      ensures result == Last(history, maxSize)
    {
      result := entries;
    }

    /** GetSince: in buffer order, the entries strictly after `since`. */
    method GetSince(since: int) returns (result: seq<LogEntry>)
      ensures result == After(entries, since)
    {
      result := [];
      for i := 0 to |entries|
        invariant result == After(entries[..i], since)
      {
        assert entries[..i + 1][..i] == entries[..i];
        if entries[i].timestamp > since {
          result := result + [entries[i]];
        }
      }
      assert entries[..|entries|] == entries;
    }
  }
}
