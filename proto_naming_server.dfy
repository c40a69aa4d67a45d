/**
 * The earlier prototype's naming server (1_Project_NFS/NFS/namingServer/namingServer.c):
 * a global table of 100 `StorageServerInfo` records with a count, a prefix test
 * on the first message of a connection, a registration parsed with
 * `"STORAGE %s %d %[^\n]"` and split at commas, and a one-query client handler
 * that scans the table linearly.
 *
 * The registration as written fills a heap copy and increments the count but
 * never writes the table, so every slot keeps its zero value and every query
 * misses. `HandleRegistration` models that; `HandleRegistrationFixed` is the
 * evidently intended version that stores the record in slot `count`.
 */
module ProtoNamingServer {
  import opened Wrappers
  import opened CText

  const BUFFER_SIZE: nat := 1024
  const MAX_STORAGE_SERVERS: nat := 100
  const MAX_PATHS_PER_SERVER: nat := 10
  const MAX_PATH_LENGTH: nat := 100

  const PATH_NOT_FOUND := "Error: Path not found"

  /** One table record; `path_count` is the length of `paths`. */
  datatype StorageServerInfo = StorageServerInfo(ip: string, port: int, paths: seq<string>, sock: int)

  /** A record of the zero-initialised global table. */
  const ZeroServer := StorageServerInfo("", 0, [], 0)

  // ---------------------------------------------------------------------------
  // The first message of a connection
  // ---------------------------------------------------------------------------

  datatype Route = ClientQuery | StorageRegistration | Rejected

  /**
   * `strncmp(buffer, "CLIENT", 6)`, then `strncmp(buffer, "STORAGE", 7)`; anything
   * else closes the socket. A failed first recv leaves the buffer empty.
   */
  function Identify(buffer: string): (r: Route)
    ensures r == ClientQuery <==> HasPrefix(buffer, "CLIENT")
    ensures r == StorageRegistration <==> !HasPrefix(buffer, "CLIENT") && HasPrefix(buffer, "STORAGE")
  {
    if HasPrefix(buffer, "CLIENT") then ClientQuery
    else if HasPrefix(buffer, "STORAGE") then StorageRegistration
    else Rejected
  }

  /**
   * The buffer after a second `recv` into it without clearing it: the received
   * bytes overwrite its start and the rest of the earlier message stays behind.
   */
  function Overlay(buffer: string, received: string): (r: string)
    ensures |r| == if |received| < |buffer| then |buffer| else |received|
    ensures r[..|received|] == received
    ensures forall i :: |received| <= i < |buffer| ==> r[i] == buffer[i]
  {
    if |received| < |buffer| then received + buffer[|received|..] else received
  }

  // ---------------------------------------------------------------------------
  // Registration
  // ---------------------------------------------------------------------------

  datatype ProtoHeader = ProtoHeader(ip: string, port: int, pathsText: string)

  /**
   * `sscanf(buffer, "STORAGE %s %d %[^\n]", ip, &port, paths) == 3`: the literal
   * must open the buffer, then a word, an integer and, after white space, a
   * non-empty rest of the line.
   */
  function ParseHeader(buffer: string): (r: Option<ProtoHeader>)
    ensures r.Some? ==> HasPrefix(buffer, "STORAGE") && IsWord(r.value.ip)
    ensures r.Some? ==> r.value.pathsText != [] && NoChar(r.value.pathsText, '\n')
  {
    if !HasPrefix(buffer, "STORAGE") then None
    else
      match ScanWord(buffer[7..]) {
        case None => None
        case Some((ip, r1)) =>
          match ScanInt(r1) {
            case None => None
            case Some((port, r2)) =>
              match ScanLine(SkipSpaces(r2)) {
                case None => None
                case Some((text, _)) => Some(ProtoHeader(ip, port, text))
              }
          }
      }
  }

  /**
   * The paths a registration stores: the non-empty comma-separated tokens, in
   * order, at most MAX_PATHS_PER_SERVER of them, each as strncpy(.., MAX_PATH_LENGTH)
   * leaves it.
   */
  function ProtoPaths(pathsText: string): seq<string>
  {
    TruncateAll(Take(Tokens(pathsText, ','), MAX_PATHS_PER_SERVER), MAX_PATH_LENGTH)
  }

  /** What one registration attempt came to. */
  datatype RegistrationOutcome =
    | NotProcessed                           // the second recv failed or the parse did not yield 3 fields
    | Registered(server: StorageServerInfo)  // the heap record handed to the server's thread
    | Refused                                // the table was full: the socket is closed

  /**
   * The registration branch of `main`: the second recv lands on the buffer the
   * first one filled; the record is built when the parse succeeds and the count
   * is below MAX_STORAGE_SERVERS.
   */
  function RegistrationResult(buffer: string, received: Option<string>, count: nat, socket: int): (r: RegistrationOutcome)
    ensures r.Registered? <==>
      received.Some? && ParseHeader(Overlay(buffer, received.value)).Some? && count < MAX_STORAGE_SERVERS
    ensures r.Refused? <==>
      received.Some? && ParseHeader(Overlay(buffer, received.value)).Some? && count >= MAX_STORAGE_SERVERS
    ensures r.Registered? ==>
      var h := ParseHeader(Overlay(buffer, received.value)).value;
      r.server == StorageServerInfo(h.ip, h.port, ProtoPaths(h.pathsText), socket)
  {
    match received {
      case None => NotProcessed
      case Some(bytes) =>
        match ParseHeader(Overlay(buffer, bytes)) {
          case None => NotProcessed
          case Some(h) =>
            if count < MAX_STORAGE_SERVERS then Registered(StorageServerInfo(h.ip, h.port, ProtoPaths(h.pathsText), socket))
            else Refused
        }
    }
  }

  /** Every stored path list holds at most ten non-empty, comma-free paths of at most MAX_PATH_LENGTH characters. */
  lemma ProtoPathsBounds(pathsText: string)
    ensures |ProtoPaths(pathsText)| <= MAX_PATHS_PER_SERVER
    ensures forall i :: 0 <= i < |ProtoPaths(pathsText)| ==>
      var p := ProtoPaths(pathsText)[i];
      p != [] && |p| <= MAX_PATH_LENGTH && NoChar(p, ',')
  {
    var ts := Take(Tokens(pathsText, ','), MAX_PATHS_PER_SERVER);
    forall i | 0 <= i < |ts|
      ensures ts[i] != [] && NoChar(ts[i], ',')
    {
      assert ts[i] == Tokens(pathsText, ',')[i];
    }
  }

  /** The strtok loop filling `new_server->paths` while `path_count < MAX_PATHS_PER_SERVER`. */
  method CollectPaths(pathsText: string) returns (paths: seq<string>)
    ensures paths == ProtoPaths(pathsText)
  {
    var tokens := Tokens(pathsText, ',');
    paths := [];
    while |paths| < |tokens| && |paths| < MAX_PATHS_PER_SERVER
      invariant |paths| <= |tokens| && |paths| <= MAX_PATHS_PER_SERVER
      invariant paths == TruncateAll(tokens[..|paths|], MAX_PATH_LENGTH)
    {
      paths := paths + [Take(tokens[|paths|], MAX_PATH_LENGTH)];
    }
    assert tokens[..|paths|] == Take(tokens, MAX_PATHS_PER_SERVER);
  }

  // ---------------------------------------------------------------------------
  // The client query
  // ---------------------------------------------------------------------------

  /** `strncpy(requested_path, buffer, MAX_PATH_LENGTH)` after a recv into a cleared buffer. */
  function RequestedPath(received: Option<string>): (key: string)
    ensures |key| <= MAX_PATH_LENGTH
    ensures received.Some? && |received.value| <= MAX_PATH_LENGTH ==> key == received.value
  {
    Take(received.GetOr(""), MAX_PATH_LENGTH)
  }

  /** The first of the first `count` records that lists `key`, and none before it. */
  function FindServer(servers: seq<StorageServerInfo>, count: nat, key: string): (r: Option<nat>)
    requires count <= |servers|
    ensures r.Some? ==> r.value < count && key in servers[r.value].paths
    ensures r.Some? ==> forall i :: 0 <= i < r.value ==> key !in servers[i].paths
    ensures r.None? <==> forall i :: 0 <= i < count ==> key !in servers[i].paths
    decreases count
  {
    if count == 0 then None
    else
      match FindServer(servers, count - 1, key) {
        case Some(i) => Some(i)
        case None => if key in servers[count - 1].paths then Some(count - 1) else None
      }
  }

  /** `snprintf(buffer, BUFFER_SIZE, "Storage IP: %s, Storage Port: %d", ip, port)`. */
  function FoundReply(s: StorageServerInfo): string
  {
    "Storage IP: " + s.ip + ", Storage Port: " + IntToString(s.port)
  }

  function LookupReply(servers: seq<StorageServerInfo>, count: nat, key: string): string
    requires count <= |servers|
  {
    match FindServer(servers, count, key) {
      case Some(i) => FoundReply(servers[i])
      case None => PATH_NOT_FOUND
    }
  }

  /** Only the first `count` records are looked at. */
  lemma {:induction false} FindServerAgrees(a: seq<StorageServerInfo>, b: seq<StorageServerInfo>, count: nat, key: string)
    requires count <= |a| && count <= |b|
    requires forall i :: 0 <= i < count ==> a[i] == b[i]
    ensures FindServer(a, count, key) == FindServer(b, count, key)
    decreases count
  {
    if count > 0 {
      FindServerAgrees(a, b, count - 1, key);
      assert a[count - 1] == b[count - 1];
    }
  }

  /**
   * With the record written to slot `count` (the corrected registration), a
   * query finds what it found before, and otherwise the new record if it lists
   * the key: the earliest registration wins.
   */
  lemma EarliestRegistrationWins(servers: seq<StorageServerInfo>, count: nat, record: StorageServerInfo, key: string)
    requires count < |servers|
    ensures FindServer(servers[count := record], count + 1, key) ==
      match FindServer(servers, count, key) {
        case Some(i) => Some(i)
        case None => if key in record.paths then Some(count) else None
      }
  {
    var after := servers[count := record];
    FindServerAgrees(servers, after, count, key);
    assert after[count] == record;
  }

  /** A table whose records all keep their zero value answers every query with the miss reply. */
  lemma UnwrittenTableMisses(servers: seq<StorageServerInfo>, count: nat, key: string)
    requires count <= |servers|
    requires forall i :: 0 <= i < |servers| ==> servers[i] == ZeroServer
    ensures LookupReply(servers, count, key) == PATH_NOT_FOUND
  {
  }

  /** What one accepted connection comes to. */
  datatype ConnectionOutcome =
    | Answered(reply: string)
    | RegistrationHandled(outcome: RegistrationOutcome)
    | Closed

  // ---------------------------------------------------------------------------
  // The server state
  // ---------------------------------------------------------------------------

  class ProtoNamingServer {
    const storageServers: array<StorageServerInfo>
    var storageServerCount: nat

    ghost predicate Valid()
      reads this
    {
      storageServers.Length == MAX_STORAGE_SERVERS && storageServerCount <= MAX_STORAGE_SERVERS
    }

    /** No registration has written the table: every record keeps its zero value. */
    ghost predicate NeverWritten()
      reads this, storageServers
    {
      forall i :: 0 <= i < storageServers.Length ==> storageServers[i] == ZeroServer
    }

    /** The zero-initialised globals `storage_servers` and `storage_server_count`. */
    constructor ()
      ensures Valid() && NeverWritten() && storageServerCount == 0 && fresh(storageServers)
    {
      storageServers := new StorageServerInfo[MAX_STORAGE_SERVERS](_ => ZeroServer);
      storageServerCount := 0;
    }

    /**
     * The registration branch as written: an accepted registration increments
     * the count and hands its record to a thread, but the table is never written.
     */
    method HandleRegistration(buffer: string, received: Option<string>, socket: int) returns (outcome: RegistrationOutcome)
      requires Valid()
      modifies this
      ensures Valid()
      ensures outcome == RegistrationResult(buffer, received, old(storageServerCount), socket)
      ensures storageServerCount == old(storageServerCount) + (if outcome.Registered? then 1 else 0)
      ensures storageServers[..] == old(storageServers[..])
    {
      outcome := NotProcessed;
      if received.Some? {
        var header := ParseHeader(Overlay(buffer, received.value));
        if header.Some? {
          if storageServerCount < MAX_STORAGE_SERVERS {
            var h := header.value;
            var paths := CollectPaths(h.pathsText);
            outcome := Registered(StorageServerInfo(h.ip, h.port, paths, socket));
            storageServerCount := storageServerCount + 1;
          } else {
            outcome := Refused;
          }
        }
      }
    }

    /** The evidently intended registration: the record also goes to slot `storage_server_count`. */
    method HandleRegistrationFixed(buffer: string, received: Option<string>, socket: int) returns (outcome: RegistrationOutcome)
      requires Valid()
      modifies this, storageServers
      ensures Valid()
      ensures outcome == RegistrationResult(buffer, received, old(storageServerCount), socket)
      ensures storageServerCount == old(storageServerCount) + (if outcome.Registered? then 1 else 0)
      ensures outcome.Registered? ==> storageServers[..] == old(storageServers[..])[old(storageServerCount) := outcome.server]
      ensures !outcome.Registered? ==> storageServers[..] == old(storageServers[..])
    {
      outcome := HandleRegistration(buffer, received, socket);
      if outcome.Registered? {
        var slot := storageServerCount - 1;
        ghost var table := storageServers[..];
        storageServers[slot] := outcome.server;
        assert storageServers[..] == table[slot := outcome.server];
      }
    }

    /**
     * `handle_client`: the query's first MAX_PATH_LENGTH characters are the key;
     * the records `0..storage_server_count` and their paths are scanned in order
     * and the first exact match is answered with its address.
     */
    method HandleClient(received: Option<string>) returns (reply: string)
      requires Valid()
      ensures reply == LookupReply(storageServers[..], storageServerCount, RequestedPath(received))
      ensures NeverWritten() ==> reply == PATH_NOT_FOUND
    {
      var key := RequestedPath(received);
      ghost var servers := storageServers[..];
      var i := 0;
      while i < storageServerCount
        invariant 0 <= i <= storageServerCount
        invariant forall k :: 0 <= k < i ==> key !in servers[k].paths
      {
        var server := storageServers[i];
        var j := 0;
        while j < |server.paths|
          invariant 0 <= j <= |server.paths|
          invariant forall m :: 0 <= m < j ==> server.paths[m] != key
        {
          if server.paths[j] == key {
            assert key in servers[i].paths;
            ghost var found := FindServer(servers, storageServerCount, key);
            assert found == Some(i);
            if NeverWritten() {
              UnwrittenTableMisses(servers, storageServerCount, key);
            }
            return FoundReply(server);
          }
          j := j + 1;
        }
        assert key !in servers[i].paths;
        i := i + 1;
      }
      if NeverWritten() {
        UnwrittenTableMisses(servers, storageServerCount, key);
      }
      reply := PATH_NOT_FOUND;
    }

    /**
     * One pass of the accept loop: the first message picks the client handler
     * (which reads the query), the registration branch (which reads the
     * registration into the same buffer), or closes the socket.
     */
    method ConnectionHandler(first: Option<string>, second: Option<string>, socket: int) returns (outcome: ConnectionOutcome)
      requires Valid()
      modifies this
      ensures Valid()
      ensures storageServers[..] == old(storageServers[..])
      ensures Identify(first.GetOr("")) == Rejected ==> outcome == Closed
      ensures Identify(first.GetOr("")) == ClientQuery ==>
        outcome == Answered(LookupReply(storageServers[..], storageServerCount, RequestedPath(second)))
      ensures Identify(first.GetOr("")) == StorageRegistration ==>
        outcome == RegistrationHandled(RegistrationResult(first.GetOr(""), second, old(storageServerCount), socket))
      ensures outcome.RegistrationHandled? && outcome.outcome.Registered? ==> storageServerCount == old(storageServerCount) + 1
      ensures !(outcome.RegistrationHandled? && outcome.outcome.Registered?) ==> storageServerCount == old(storageServerCount)
    {
      var buffer := first.GetOr("");
      match Identify(buffer) {
        case ClientQuery =>
          var reply := HandleClient(second);
          outcome := Answered(reply);
        case StorageRegistration =>
          var result := HandleRegistration(buffer, second, socket);
          outcome := RegistrationHandled(result);
        case Rejected =>
          outcome := Closed;
      }
    }
  }
}
