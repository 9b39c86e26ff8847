/**
 The `Server` class of Classes/main.cpp as a pure state machine.

 A `World` pairs the three private fields of the object with the lines
 `start` has written to standard output so far, so that "the log line is
 emitted once" can be stated about values. `Init`, `Start` and `GetStatus`
 are the three public members; `Run` replays a sequence of calls on one
 object and collects what `getStatus` returned.
 */
module Classes {
  import opened Wrappers
  import opened Int32
  import opened Decimal

  datatype Server = Server(ipAddress: string, port: int32, isRunning: bool)

  datatype World = World(server: Server, log: seq<string>)

  /** One call on the public interface of a `Server`. */
  datatype Call = InitCall(ip: string, p: int32) | StartCall | StatusCall

  /** The fixed tag that starts every line `start` writes. */
  const LogPrefix: string := "[LOG] Server started at "

  /** The line `start` writes for a server listening on `ip` and `port`, without the trailing newline. */
  function LogLine(ip: string, port: int32): (line: string)
    ensures |line| > |LogPrefix| + |ip|
    ensures line[..|LogPrefix|] == LogPrefix
    ensures line[|LogPrefix|..|LogPrefix| + |ip|] == ip
    ensures line[|LogPrefix| + |ip|] == ':'
  {
    LogPrefix + ip + ":" + IntToDecimal(port as int)
  }

  /** Index of the last occurrence of `c` in `s`, if any. */
  function LastIndexOf(s: string, c: char): (r: Option<nat>)
    ensures r.Some? ==> r.value < |s| && s[r.value] == c
    ensures r.Some? ==> forall j :: r.value < j < |s| ==> s[j] != c
    ensures r.None? ==> forall j :: 0 <= j < |s| ==> s[j] != c
    decreases |s|
  {
    if |s| == 0 then None
    else if s[|s| - 1] == c then Some(|s| - 1)
    else LastIndexOf(s[..|s| - 1], c)
  }

  /**
   Recovers the address and port from a log line. The address may itself
   contain ':', the decimal port never does, so the line is split at its
   last ':'.
   */
  function ParseLogLine(line: string): Option<(string, int)> {
    if |line| < |LogPrefix| || line[..|LogPrefix|] != LogPrefix then None
    else
      match LastIndexOf(line, ':')
      case None => None
      case Some(k) =>
        if k < |LogPrefix| then None
        else
          match ParseInt(line[k + 1..])
          case None => None
          case Some(p) => Some((line[|LogPrefix|..k], p))
  }

  /** `init` overwrites all three fields; the output written so far stays. */
  function Init(w: World, ip: string, p: int32): (r: World)
    ensures r.server.ipAddress == ip && r.server.port == p
    ensures !r.server.isRunning
    ensures r.log == w.log
  {
    World(Server(ip, p, false), w.log)
  }

  /** `start` switches a stopped server on and writes one line; on a running server it does nothing. */
  function Start(w: World): (r: World)
    ensures r.server.isRunning
    ensures r.server.ipAddress == w.server.ipAddress && r.server.port == w.server.port
    ensures w.server.isRunning ==> r == w
    ensures !w.server.isRunning ==>
              |r.log| == |w.log| + 1 && r.log[..|w.log|] == w.log
              && r.log[|w.log|] == LogLine(w.server.ipAddress, w.server.port)
  {
    if !w.server.isRunning then
      World(w.server.(isRunning := true), w.log + [LogLine(w.server.ipAddress, w.server.port)])
    else
      w
  }

  /** `getStatus` reads the running flag. */
  function GetStatus(w: World): bool {
    w.server.isRunning
  }

  /** One call: the state after it and, for `getStatus`, the value it returned. */
  function Step(w: World, c: Call): (World, Option<bool>) {
    match c
    case InitCall(ip, p) => (Init(w, ip, p), None)
    case StartCall => (Start(w), None)
    case StatusCall => (w, Some(GetStatus(w)))
  }

  datatype Trace = Trace(world: World, statuses: seq<bool>)

  /** Replays `calls` in order; output is only ever appended to, never rewritten. */
  function Run(w: World, calls: seq<Call>): (t: Trace)
    ensures |t.world.log| >= |w.log| && t.world.log[..|w.log|] == w.log
    ensures |t.statuses| == multiset(calls)[StatusCall]
    decreases |calls|
  {
    if |calls| == 0 then Trace(w, [])
    else
      var (w1, seen) := Step(w, calls[0]);
      var rest := Run(w1, calls[1..]);
      assert calls == [calls[0]] + calls[1..];
      assert multiset(calls)[StatusCall]
          == (if calls[0].StatusCall? then 1 else 0) + multiset(calls[1..])[StatusCall];
      assert |rest.world.log| >= |w1.log| && w1.log[..|w.log|] == w.log;
      Trace(rest.world, (if seen.Some? then [seen.value] else []) + rest.statuses)
  }

  predicate NoInit(calls: seq<Call>) {
    forall i :: 0 <= i < |calls| ==> !calls[i].InitCall?
  }

  predicate HasStart(calls: seq<Call>) {
    exists i :: 0 <= i < |calls| && calls[i].StartCall?
  }

  // ---------------------------------------------------------------------------
  // Properties of the state machine
  // ---------------------------------------------------------------------------

  /** The log line names the server: its address and port can be read back from it. */
  lemma LogLineRoundTrip(ip: string, port: int32)
    ensures ParseLogLine(LogLine(ip, port)) == Some((ip, port as int))
  {
    var line := LogLine(ip, port);
    var k := |LogPrefix| + |ip|;
    var digits := IntToDecimal(port as int);
    assert line == LogPrefix + ip + ":" + digits;
    assert line[k + 1..] == digits;
    forall j | k < j < |line|
      ensures line[j] != ':'
    {
      assert line[j] == digits[j - k - 1];
    }
    var last := LastIndexOf(line, ':');
    assert last == Some(k);
    IntDecimalRoundTrip(port as int);
  }

  /** Two servers that write the same line have the same address and port. */
  lemma LogLineInjective(ip1: string, p1: int32, ip2: string, p2: int32)
    requires LogLine(ip1, p1) == LogLine(ip2, p2)
    ensures ip1 == ip2 && p1 == p2
  {
    LogLineRoundTrip(ip1, p1);
    LogLineRoundTrip(ip2, p2);
  }

  /** `init` forgets everything about the previous configuration and run state. */
  lemma InitOverwrites(w1: World, w2: World, ip: string, p: int32)
    requires w1.log == w2.log
    ensures Init(w1, ip, p) == Init(w2, ip, p)
    ensures !GetStatus(Init(w1, ip, p))
  {
  }

  /** Starting twice is the same as starting once. */
  lemma StartIdempotent(w: World)
    ensures Start(Start(w)) == Start(w)
  {
  }

  /** After `init` and `start` the server reports that it runs. */
  lemma InitThenStartRuns(w: World, ip: string, p: int32)
    ensures GetStatus(Start(Init(w, ip, p)))
    ensures Start(Init(w, ip, p)).log == w.log + [LogLine(ip, p)]
  {
  }

  /** `getStatus` changes nothing and, asked twice, answers the same. */
  lemma StatusIsPure(w: World)
    ensures Step(w, StatusCall).0 == w
    ensures Run(w, [StatusCall, StatusCall]).world == w
    ensures Run(w, [StatusCall, StatusCall]).statuses == [w.server.isRunning, w.server.isRunning]
  {
    assert [StatusCall, StatusCall][1..] == [StatusCall];
    assert [StatusCall][1..] == [];
  }

  /**
   A running server stays exactly as it is until the next `init`: there is
   no transition back to stopped and no further output.
   */
  lemma {:induction false} RunningIsStable(w: World, calls: seq<Call>)
    requires w.server.isRunning
    requires NoInit(calls)
    ensures Run(w, calls).world == w
    ensures forall i :: 0 <= i < |Run(w, calls).statuses| ==> Run(w, calls).statuses[i]
    decreases |calls|
  {
    if |calls| > 0 {
      assert !calls[0].InitCall?;
      assert NoInit(calls[1..]) by {
        forall i | 0 <= i < |calls[1..]| ensures !calls[1..][i].InitCall? {
          assert calls[1..][i] == calls[i + 1];
        }
      }
      RunningIsStable(Step(w, calls[0]).0, calls[1..]);
    }
  }

  /**
   Between two `init`s, a stopped server writes exactly one line however
   often `start` is called: the line naming its address and port, and
   only if `start` is called at all.
   */
  lemma {:induction false} StartLogsOnce(w: World, calls: seq<Call>)
    requires !w.server.isRunning
    requires NoInit(calls)
    ensures HasStart(calls) ==>
              Run(w, calls).world.server == w.server.(isRunning := true)
              && Run(w, calls).world.log == w.log + [LogLine(w.server.ipAddress, w.server.port)]
    ensures !HasStart(calls) ==> Run(w, calls).world == w
    decreases |calls|
  {
    if |calls| > 0 {
      assert !calls[0].InitCall?;
      assert NoInit(calls[1..]) by {
        forall i | 0 <= i < |calls[1..]| ensures !calls[1..][i].InitCall? {
          assert calls[1..][i] == calls[i + 1];
        }
      }
      var w1 := Step(w, calls[0]).0;
      if calls[0].StartCall? {
        RunningIsStable(w1, calls[1..]);
      } else {
        StartLogsOnce(w1, calls[1..]);
        assert HasStart(calls) <==> HasStart(calls[1..]) by {
          if HasStart(calls) {
            var i :| 0 <= i < |calls| && calls[i].StartCall?;
            assert calls[1..][i - 1].StartCall?;
          }
          if HasStart(calls[1..]) {
            var i :| 0 <= i < |calls[1..]| && calls[1..][i].StartCall?;
            assert calls[i + 1].StartCall?;
          }
        }
      }
    }
  }

  /** The line `main` of Classes/main.cpp writes. */
  lemma WebServerLogLine()
    ensures LogLine("111.1.11.12", 8080) == "[LOG] Server started at 111.1.11.12:8080"
  {
    assert IntToDecimal(8080) == "8080" by {
      assert NatToDecimal(8) == "8";
      assert NatToDecimal(80) == "80";
      assert NatToDecimal(808) == "808";
    }
  }

  const WebServerCalls: seq<Call> := [InitCall("111.1.11.12", 8080), StatusCall, StartCall, StatusCall]

  /**
   The `main` of Classes/main.cpp: after `init("111.1.11.12", 8080)` the
   status is false, after `start` it is true, and exactly one line was written.
   */
  lemma WebServerScenario(w: World)
    requires w.log == []
    ensures Run(w, WebServerCalls).statuses == [false, true]
    ensures Run(w, WebServerCalls).world.log == ["[LOG] Server started at 111.1.11.12:8080"]
  {
    var w1 := Init(w, "111.1.11.12", 8080);
    var tail := WebServerCalls[1..];
    assert tail == [StatusCall, StartCall, StatusCall];
    assert tail[1..] == [StartCall, StatusCall];
    assert tail[1..][1..] == [StatusCall];
    assert tail[1..][1..][1..] == [];
    WebServerLogLine();
    assert Run(w, WebServerCalls).world.log == Start(w1).log;
  }
}
