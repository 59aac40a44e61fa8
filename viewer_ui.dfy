/** The parts of the viewer's side panel that are decisions rather than
    drawing (Graphic/src/ui/ui_manager.cpp): the bounded log, the status
    glyph of a vehicle, how many list rows are shown, and which log entries
    the log panel visits. The clock is a parameter. */
module ViewerUi {
  import opened Wire
  import opened Collections
  import ViewerRocket

  const MaxLogs := 50
  const MaxListed := 5
  const WarnPrefix := "[WARN] "
  const ErrorPrefix := "[ERR] "

  /** The named colours the decisions below choose between. */
  datatype Color = White | Green | Yellow | Red | SkyBlue

  datatype LogEntry = LogEntry(message: string, color: Color, timestamp: real)

  /** The glyph and colour shown after a vehicle's name. */
  datatype Status = Status(glyph: string, color: Color)

  /** The status glyph: crashed wins over landed, landed over in orbit, and
      a vehicle that is none of these is flying. */
  function StatusOf(s: RocketState): (st: Status)
    ensures s.crashed ==> st == Status("[X]", Red)
    ensures !s.crashed && s.landed ==> st == Status("[L]", Green)
    ensures !s.crashed && !s.landed && s.inOrbit ==> st == Status("[O]", SkyBlue)
    ensures !s.crashed && !s.landed && !s.inOrbit ==> st == Status("[F]", Yellow)
  {
    if s.crashed then Status("[X]", Red)
    else if s.landed then Status("[L]", Green)
    else if s.inOrbit then Status("[O]", SkyBlue)
    else Status("[F]", Yellow)
  }

  /** The flying glyph is shown exactly for the vehicles the viewer counts as
      active, and a terminal vehicle never shows the in-orbit glyph. */
  lemma StatusMatchesActivity(s: RocketState)
    ensures StatusOf(s).glyph == "[F]" <==> ViewerRocket.Active(s)
    ensures Terminal(s) ==> StatusOf(s).glyph == "[X]" || StatusOf(s).glyph == "[L]"
  {
  }

  /** The four glyphs are distinct, so the glyph tells the four cases apart. */
  lemma StatusDistinguishes(s1: RocketState, s2: RocketState)
    requires StatusOf(s1).glyph == StatusOf(s2).glyph
    ensures s1.crashed == s2.crashed
    ensures !s1.crashed ==> s1.landed == s2.landed
    ensures !s1.crashed && !s1.landed ==> s1.inOrbit == s2.inOrbit
  {
    assert "[X]" != "[L]" && "[X]" != "[O]" && "[X]" != "[F]";
    assert "[L]" != "[O]" && "[L]" != "[F]" && "[O]" != "[F]";
  }

  /** Rows shown in the vehicle list: min(count, 5). */
  function VisibleCount(count: nat): (v: nat)
    ensures v <= count && v <= MaxListed
    ensures v == count || v == MaxListed
  {
    if count < MaxListed then count else MaxListed
  }

  /** The "... and N more" line: present only beyond five vehicles. */
  function MoreCount(count: nat): (more: Option<nat>)
    ensures more.Some? <==> count > MaxListed
  {
    if count > MaxListed then Some(count - MaxListed) else None
  }

  /** Shown rows and the "more" figure together account for every vehicle. */
  lemma ListAccountsForAll(count: nat)
    ensures VisibleCount(count) + (if MoreCount(count).Some? then MoreCount(count).value else 0) == count
    ensures MoreCount(count).Some? ==> VisibleCount(count) == MaxListed
  {
  }

  /** The log indices the log panel visits, newest first: from size−1 down
      to max(0, size − maxVisible). */
  function LogPanelIndices(size: nat, maxVisible: int): (r: seq<int>)
    ensures |r| == if maxVisible <= 0 then 0 else if maxVisible < size then maxVisible else size
    ensures forall k :: 0 <= k < |r| ==> r[k] == size - 1 - k
  {
    var start := if size - maxVisible > 0 then size - maxVisible else 0;
    var n := if start < size then size - start else 0;
    seq(n, k => size - 1 - k)
  }

  /** The panel visits exactly the newest maxVisible entries, each once. */
  lemma LogPanelShowsNewest(size: nat, maxVisible: int, i: int)
    ensures i in LogPanelIndices(size, maxVisible) <==> 0 <= i < size && i >= size - maxVisible
  {
    var r := LogPanelIndices(size, maxVisible);
    if 0 <= i < size && i >= size - maxVisible {
      assert r[size - 1 - i] == i;
    }
  }

  class UIManager {
    var logs: seq<LogEntry>
    /** Every entry ever logged, oldest first. */
    ghost var history: seq<LogEntry>

    /** The panel keeps exactly the newest MaxLogs entries. */
    ghost predicate Valid()
      reads this
    {
      logs == Last(history, MaxLogs)
    }

    constructor ()
      ensures Valid() && logs == [] && history == []
    {
      logs := [];
      history := [];
    }

    /** addLog: append, then erase from the front while over MaxLogs. */
    method AddLog(message: string, color: Color, now: real)
      requires Valid()
      modifies this
      ensures Valid()
      ensures history == old(history) + [LogEntry(message, color, now)]
      ensures logs == (if |old(logs)| >= MaxLogs then old(logs)[1..] else old(logs)) + [LogEntry(message, color, now)]
      ensures |logs| <= MaxLogs
      ensures logs[|logs| - 1] == LogEntry(message, color, now)
    {
      var entry := LogEntry(message, color, now);
      ghost var before := logs;
      assert |before| <= MaxLogs;
      logs := logs + [entry];
      history := history + [entry];
      ghost var grown := logs;
      TrimLogs();
      if |before| >= MaxLogs {
        assert grown[|grown| - MaxLogs..] == before[1..] + [entry];
      }
      LastOfAppend(old(history), entry, MaxLogs);
    }

    /** The erase loop of addLog: drop the oldest entries until at most
        MaxLogs remain. */
    method TrimLogs()
      modifies this
      ensures logs == Last(old(logs), MaxLogs)
      ensures history == old(history)
    {
      while |logs| > MaxLogs
        invariant |logs| <= |old(logs)| && logs == old(logs)[|old(logs)| - |logs|..]
        invariant |logs| >= MaxLogs || logs == old(logs)
        invariant history == old(history)
        decreases |logs|
      {
        logs := logs[1..];
      }
    }

    /** addWarning: logs "[WARN] " + message in yellow. */
    method AddWarning(message: string, now: real)
      requires Valid()
      modifies this
      ensures Valid()
      ensures history == old(history) + [LogEntry(WarnPrefix + message, Yellow, now)]
    {
      AddLog(WarnPrefix + message, Yellow, now);
    }

    /** addError: logs "[ERR] " + message in red. */
    method AddError(message: string, now: real)
      requires Valid()
      modifies this
      ensures Valid()
      ensures history == old(history) + [LogEntry(ErrorPrefix + message, Red, now)]
    {
      AddLog(ErrorPrefix + message, Red, now);
    }
  }
}
