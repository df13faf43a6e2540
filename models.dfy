/** The records the monitor shows, one per port, and the classification of
    the process that owns a port by its name. */
module Models {
  import opened Strings

  /** The five process categories, with the raw values the view displays. */
  datatype ProcessType = WebServer | Database | Development | System | Other

  /** `ProcessType.allCases`, in declaration order. */
  const AllCases: seq<ProcessType> := [WebServer, Database, Development, System, Other]

  function RawValue(t: ProcessType): string {
    match t
    case WebServer => "Web Server"
    case Database => "Database"
    case Development => "Development"
    case System => "System"
    case Other => "Other"
  }

  /** The SF Symbol name shown for a category. */
  function Icon(t: ProcessType): string {
    match t
    case WebServer => "globe"
    case Database => "cylinder"
    case Development => "hammer"
    case System => "gearshape"
    case Other => "powerplug"
  }

  /** Every category is listed once in `AllCases`. */
  lemma AllCasesComplete(t: ProcessType)
    ensures t in AllCases
    ensures forall i, j :: 0 <= i < j < |AllCases| ==> AllCases[i] != AllCases[j]
  {
  }

  /** Raw values tell the categories apart. */
  lemma RawValueInjective(s: ProcessType, t: ProcessType)
    requires RawValue(s) == RawValue(t)
    ensures s == t
  {
    assert RawValue(s)[0] == RawValue(t)[0];
  }

  /** Icons tell the categories apart. */
  lemma IconInjective(s: ProcessType, t: ProcessType)
    requires Icon(s) == Icon(t)
    ensures s == t
  {
    assert Icon(s)[0] == Icon(t)[0];
  }

  // The keyword tables, in the order in which the classifier tries them.

  const WebServers: seq<string> := ["nginx", "apache", "httpd", "caddy", "traefik", "lighttpd"]

  const Databases: seq<string> := ["postgres", "mysql", "mariadb", "redis", "mongo", "sqlite", "cockroach", "clickhouse"]

  const DevTools: seq<string> := ["node", "npm", "yarn", "python", "ruby", "php", "java", "go", "cargo", "swift", "vite", "webpack", "esbuild", "next", "nuxt", "remix"]

  const SystemProcs: seq<string> := ["launchd", "rapportd", "sharingd", "airplay", "control", "kernel", "mds", "spotlight"]

  /** `keywords.contains(where: { name.contains($0) })`. */
  predicate AnyIn(name: string, keywords: seq<string>) {
    exists i | 0 <= i < |keywords| :: Contains(name, keywords[i])
  }

  /** `ProcessType.detect(from:)`: lowercase the name, then try the four
      tables in a fixed order; the first table with a keyword inside the
      name decides, and a name that hits none is `Other`. */
  function Detect(processName: string): ProcessType {
    var name := Lower(processName);
    if AnyIn(name, WebServers) then WebServer
    else if AnyIn(name, Databases) then Database
    else if AnyIn(name, DevTools) then Development
    else if AnyIn(name, SystemProcs) then System
    else Other
  }

  // An independent reading of the classifier: categories ranked by priority,
  // each with its table (`Other` has none), and the winner is the category
  // whose table hits while no table of higher priority does.

  function Priority(t: ProcessType): nat {
    match t
    case WebServer => 0
    case Database => 1
    case Development => 2
    case System => 3
    case Other => 4
  }

  function Keywords(t: ProcessType): seq<string> {
    match t
    case WebServer => WebServers
    case Database => Databases
    case Development => DevTools
    case System => SystemProcs
    case Other => []
  }

  /** `t` is the first category, in priority order, that claims `name`. */
  ghost predicate FirstMatch(name: string, t: ProcessType) {
    (t == Other || AnyIn(name, Keywords(t))) &&
    forall u :: Priority(u) < Priority(t) ==> !AnyIn(name, Keywords(u))
  }

  /** The classifier picks exactly the first category in priority order
      whose keyword table has a hit in the lowercased name. */
  lemma DetectIsFirstMatch(processName: string, t: ProcessType)
    ensures Detect(processName) == t <==> FirstMatch(Lower(processName), t)
  {
    var name := Lower(processName);
    if Detect(processName) == t {
      forall u | Priority(u) < Priority(t)
        ensures !AnyIn(name, Keywords(u))
      {
        assert u != t && u != Other;
      }
    }
  }

  /** Every keyword of the four tables. */
  const AllKeywords: seq<string> := WebServers + Databases + DevTools + SystemProcs

  /** A name is `Other` exactly when no keyword of any table occurs in it. */
  lemma DetectOtherIff(processName: string)
    ensures Detect(processName) == Other <==>
            forall k :: k in AllKeywords ==> !Contains(Lower(processName), k)
  {
    var name := Lower(processName);
    if Detect(processName) == Other {
      forall k | k in AllKeywords
        ensures !Contains(name, k)
      {
        if k in WebServers {
          var i :| 0 <= i < |WebServers| && WebServers[i] == k;
        } else if k in Databases {
          var i :| 0 <= i < |Databases| && Databases[i] == k;
        } else if k in DevTools {
          var i :| 0 <= i < |DevTools| && DevTools[i] == k;
        } else {
          var i :| 0 <= i < |SystemProcs| && SystemProcs[i] == k;
        }
      }
    } else {
      var ks := Keywords(Detect(processName));
      var i :| 0 <= i < |ks| && Contains(name, ks[i]);
      assert ks[i] in AllKeywords;
    }
  }

  /** A web-server keyword in the name makes it a web server, whatever other
      keywords it also holds. */
  lemma WebServerWins(processName: string, k: string)
    requires k in WebServers && Contains(Lower(processName), k)
    ensures Detect(processName) == WebServer
  {
    var i :| 0 <= i < |WebServers| && WebServers[i] == k;
  }

  /** The classifier depends only on the lowercased name. */
  lemma DetectCaseInsensitive(processName: string)
    ensures Detect(Lower(processName)) == Detect(processName)
  {
    LowerIdempotent(processName);
  }

  /** "mysql-node-wrapper" holds a database keyword and a development
      keyword; the database table is tried first. */
  lemma DetectMysqlNodeWrapper()
    ensures Contains("mysql-node-wrapper", "node")
    ensures Detect("mysql-node-wrapper") == Database
  {
    var name := "mysql-node-wrapper";
    LowerMysqlNodeWrapper();
    ContainsAt(name, "node", 6);
    ContainsAt(name, "mysql", 0);
    assert Databases[1] == "mysql";
    MysqlNodeWrapperNoWebServer();
  }

  lemma LowerMysqlNodeWrapper()
    ensures Lower("mysql-node-wrapper") == "mysql-node-wrapper"
  {
  }

  lemma MysqlNodeWrapperNoWebServer()
    ensures !AnyIn("mysql-node-wrapper", WebServers)
  {
    var name := "mysql-node-wrapper";
    MissingChar(name, "nginx", 1); MissingChar(name, "apache", 3); MissingChar(name, "httpd", 0);
    MissingChar(name, "caddy", 0); MissingChar(name, "traefik", 0); MissingChar(name, "lighttpd", 1);
  }

  /** "mongo" holds the development keyword "go" but is a database. */
  lemma DetectMongo()
    ensures Contains("mongo", "go")
    ensures Detect("mongo") == Database
  {
    var name := "mongo";
    assert Lower(name) == name;
    ContainsAt(name, "go", 3);
    ContainsSelf(name);
    assert Databases[4] == "mongo";
    MissingChar(name, "nginx", 2);
    MissingChar(name, "apache", 0);
    MissingChar(name, "httpd", 0);
    MissingChar(name, "caddy", 0);
    MissingChar(name, "traefik", 0);
    MissingChar(name, "lighttpd", 0);
    assert !AnyIn(name, WebServers);
  }

  /** `PortInfo`: one row of the port list. `isActive` is false for the
      placeholders of favorite or watched ports that nothing listens on. */
  datatype PortInfo = PortInfo(
    port: int,
    pid: int,
    processName: string,
    address: string,
    user: string,
    command: string,
    fd: string,
    isActive: bool)

  /** The derived `processType` property of a row. */
  function ProcessTypeOf(p: PortInfo): ProcessType {
    Detect(p.processName)
  }

  /** `PortInfo.inactive(port:)`: the placeholder row for a favorite or
      watched port without a listening process. */
  function Inactive(port: int): (r: PortInfo)
    ensures r.port == port && r.pid == 0 && !r.isActive
    ensures r.processName == "Not running"
    ensures r.address == "-" && r.user == "-"
    ensures r.command == "" && r.fd == ""
  {
    PortInfo(port, 0, "Not running", "-", "-", "", "", false)
  }

  /** `PortInfo.active(...)`: a row built from a scan result. */
  function Active(port: int, pid: int, processName: string, address: string,
                  user: string, command: string, fd: string): (r: PortInfo)
    ensures r.isActive
    ensures r.port == port && r.pid == pid && r.processName == processName
    ensures r.address == address && r.user == user && r.command == command && r.fd == fd
  {
    PortInfo(port, pid, processName, address, user, command, fd, true)
  }

  // "not running" against each table: every keyword but "go" has a letter
  // that "not running" lacks.

  lemma NotRunningNoWebServer()
    ensures !AnyIn("not running", WebServers)
  {
    var name := "not running";
    MissingChar(name, "nginx", 4); MissingChar(name, "apache", 0); MissingChar(name, "httpd", 0);
    MissingChar(name, "caddy", 0); MissingChar(name, "traefik", 2); MissingChar(name, "lighttpd", 0);
  }

  lemma NotRunningNoDatabase()
    ensures !AnyIn("not running", Databases)
  {
    var name := "not running";
    MissingChar(name, "postgres", 0); MissingChar(name, "mysql", 0); MissingChar(name, "mariadb", 0);
    MissingChar(name, "redis", 1); MissingChar(name, "mongo", 0); MissingChar(name, "sqlite", 0);
    MissingChar(name, "cockroach", 0); MissingChar(name, "clickhouse", 0);
  }

  lemma NotRunningNoDevTool()
    ensures !AnyIn("not running", DevTools)
  {
    var name := "not running";
    MissingChar(name, "node", 2); MissingChar(name, "npm", 1); MissingChar(name, "yarn", 0);
    MissingChar(name, "python", 0); MissingChar(name, "ruby", 2); MissingChar(name, "php", 0);
    MissingChar(name, "java", 0);
    NotRunningNoLaterDevTool();
    // "go": the only 'g' is the last character.
    MissingChar("not runnin", "go", 0);
    assert name == "not runnin" + ['g'];
    NotContainsSnoc("not runnin", 'g', "go");
  }

  lemma NotRunningNoLaterDevTool()
    ensures forall i :: 8 <= i < |DevTools| ==> !Contains("not running", DevTools[i])
  {
    var name := "not running";
    MissingChar(name, "cargo", 0); MissingChar(name, "swift", 0);
    MissingChar(name, "vite", 0); MissingChar(name, "webpack", 0); MissingChar(name, "esbuild", 0);
    MissingChar(name, "next", 1); MissingChar(name, "nuxt", 2); MissingChar(name, "remix", 1);
  }

  lemma NotRunningNoSystem()
    ensures !AnyIn("not running", SystemProcs)
  {
    var name := "not running";
    MissingChar(name, "launchd", 0); MissingChar(name, "rapportd", 1); MissingChar(name, "sharingd", 0);
    MissingChar(name, "airplay", 0); MissingChar(name, "control", 0); MissingChar(name, "kernel", 0);
    MissingChar(name, "mds", 0); MissingChar(name, "spotlight", 0);
  }

  /** A placeholder is classified `Other`: "not running" holds no keyword. */
  lemma InactiveIsOther(port: int)
    ensures ProcessTypeOf(Inactive(port)) == Other
  {
    assert Lower(Inactive(port).processName) == "not running";
    NotRunningNoWebServer();
    NotRunningNoDatabase();
    NotRunningNoDevTool();
    NotRunningNoSystem();
  }

  /** No scan row is ever a placeholder, and two placeholders differ only in
      their port. */
  lemma ActiveIsNotInactive(port: int, pid: int, processName: string, address: string,
                            user: string, command: string, fd: string, q: int)
    ensures Active(port, pid, processName, address, user, command, fd) != Inactive(q)
    ensures Inactive(port) == Inactive(q) <==> port == q
  {
  }

  /** `WatchedPort`: a port the user asked to be notified about. Its `UUID`
      identity is not modelled. */
  datatype WatchedPort = WatchedPort(port: int, notifyOnStart: bool, notifyOnStop: bool)

  /** `WatchedPort.init(port:notifyOnStart:notifyOnStop:)`, with both
      notification flags defaulting to on. */
  function NewWatchedPort(port: int, notifyOnStart: bool := true, notifyOnStop: bool := true): (w: WatchedPort)
    ensures w.port == port
    ensures w.notifyOnStart == notifyOnStart && w.notifyOnStop == notifyOnStop
  {
    WatchedPort(port, notifyOnStart, notifyOnStop)
  }

  /** A port watched with the defaults notifies on start and on stop. */
  lemma NewWatchedPortDefaults(port: int)
    ensures NewWatchedPort(port).port == port
    ensures NewWatchedPort(port).notifyOnStart && NewWatchedPort(port).notifyOnStop
  {
  }
}
