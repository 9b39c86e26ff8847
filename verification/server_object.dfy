/**
 The `Server` of Classes/main.cpp as a mutable object, its members
 specified by the pure state machine in module `Classes`. The ghost `log`
 stands for the lines written to standard output.
 */
module ServerObject {
  import opened Int32
  import Classes

  class ServerInstance {
    var ipAddress: string
    var port: int32
    var isRunning: bool
    ghost var log: seq<string>

    ghost function State(): Classes.World
      reads this
    {
      Classes.World(Classes.Server(ipAddress, port, isRunning), log)
    }

    /** A freshly created server, configured the way `init` configures it. */
    constructor (ip: string, p: int32)
      ensures ipAddress == ip && port == p && !isRunning
      ensures log == []
    {
      ipAddress := ip;
      port := p;
      isRunning := false;
      log := [];
    }

    method Init(ip: string, p: int32)
      modifies this
      ensures State() == Classes.Init(old(State()), ip, p)
      ensures ipAddress == ip && port == p && !isRunning && log == old(log)
    {
      ipAddress := ip;
      port := p;
      isRunning := false;
    }

    method Start()
      modifies this
      ensures State() == Classes.Start(old(State()))
      ensures ipAddress == old(ipAddress) && port == old(port) && isRunning
      ensures old(isRunning) ==> log == old(log)
      ensures !old(isRunning) ==> log == old(log) + [Classes.LogLine(ipAddress, port)]
    {
      if !isRunning {
        isRunning := true;
        log := log + [Classes.LogLine(ipAddress, port)];
      }
    }

    method GetStatus() returns (running: bool)
      ensures running == Classes.GetStatus(State())
      ensures running == isRunning
    {
      running := isRunning;
    }
  }

  /** The call sequence of `main` in Classes/main.cpp on an object. */
  method WebServer() returns (before: bool, after: bool, ghost log: seq<string>)
    ensures !before && after
    ensures log == ["[LOG] Server started at 111.1.11.12:8080"]
  {
    var webServer := new ServerInstance("0.0.0.0", 0);
    webServer.Init("111.1.11.12", 8080);
    before := webServer.GetStatus();
    webServer.Start();
    after := webServer.GetStatus();
    log := webServer.log;
    Classes.WebServerLogLine();
  }
}
