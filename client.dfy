/**
 * The client of NFS/client.c: the lookup request and the parse of its reply,
 * the create message, the cached connections to the naming server and to a
 * storage server, and the classification of the commands typed at its prompt.
 * Sockets are integers handed in by the caller: `socket()`'s result and whether
 * `connect()` succeeded are parameters.
 */
module Client {
  import opened Wrappers
  import opened CText

  /** `ServerInfo`: a storage server's ip and client port, and the socket cached for it. */
  datatype ServerInfo = ServerInfo(ip: string, port: int, socket: int)

  /** `memset(&server_info, 0, sizeof(ServerInfo))`. */
  const ZeroInfo := ServerInfo("", 0, 0)

  /** `sprintf(request, "GET_SERVER %s", path)`. */
  function GetServerRequest(path: string): string
  {
    "GET_SERVER " + path
  }

  /**
   * `get_storage_server` given what its `recv` yielded: the zeroed record, with
   * `sscanf(response, "%s %d", ip, &port)` filling what it converts.
   */
  function GetStorageServer(response: Option<string>): (info: ServerInfo)
    ensures info.socket == 0
    ensures response.None? ==> info == ZeroInfo
    ensures info.ip != "" ==> response.Some? && ScanWord(response.value).Some? && info.ip == ScanWord(response.value).value.0
  {
    match response {
      case None => ZeroInfo
      case Some(r) =>
        match ScanWord(r) {
          case None => ZeroInfo
          case Some((ip, rest)) =>
            var port := match ScanInt(rest) {
              case None => 0
              case Some((p, _)) => p
            };
            ServerInfo(ip, port, 0)
        }
    }
  }

  /** `sprintf(buffer, "CREATE %s%s", path, is_directory ? "/" : "")`. */
  function CreateMessage(path: string, isDirectory: int): (msg: string)
    ensures HasPrefix(msg, "CREATE " + path)
    ensures msg == "CREATE " + path + "/" <==> isDirectory != 0
    ensures msg == "CREATE " + path <==> isDirectory == 0
  {
    "CREATE " + path + (if isDirectory != 0 then "/" else "")
  }

  // ---------------------------------------------------------------------------
  // Cached connections
  // ---------------------------------------------------------------------------

  /** One call of `connect_to_naming_server` on the value of the cache. */
  datatype NamingConnectStep = NamingConnectStep(cache: int, result: int, sent: seq<string>)

  /**
   * `connect_to_naming_server` given the cached socket, what `socket()` returns
   * and whether `connect()` succeeds: a cached socket is returned as it is;
   * otherwise a failed connect resets the cache to -1, and a successful one keeps
   * the new socket and identifies the client with one `CLIENT` message.
   */
  function NamingConnect(cache: int, newSocket: int, connects: bool): (step: NamingConnectStep)
    ensures cache != -1 ==> step == NamingConnectStep(cache, cache, [])
    ensures cache == -1 ==> step.cache == step.result && (step.sent == ["CLIENT"] <==> step.result != -1)
    ensures step.sent == [] || step.sent == ["CLIENT"]
  {
    if cache != -1 then NamingConnectStep(cache, cache, [])
    else if newSocket == -1 || !connects then NamingConnectStep(-1, -1, [])
    else NamingConnectStep(newSocket, newSocket, ["CLIENT"])
  }

  /** The messages sent over a run of connection attempts, each with its `socket()` result and connect outcome. */
  function SentOver(cache: int, attempts: seq<(int, bool)>): seq<string>
    decreases attempts
  {
    if attempts == [] then []
    else
      var step := NamingConnect(cache, attempts[0].0, attempts[0].1);
      step.sent + SentOver(step.cache, attempts[1..])
  }

  /** However often the client asks for its naming-server connection, it identifies itself once at most. */
  lemma {:induction false} IdentifiesAtMostOnce(cache: int, attempts: seq<(int, bool)>)
    ensures cache != -1 ==> SentOver(cache, attempts) == []
    ensures SentOver(cache, attempts) == [] || SentOver(cache, attempts) == ["CLIENT"]
    decreases attempts
  {
    if attempts != [] {
      var step := NamingConnect(cache, attempts[0].0, attempts[0].1);
      IdentifiesAtMostOnce(step.cache, attempts[1..]);
      if step.sent != [] {
        assert step.cache != -1;
      }
    }
  }

  /** The global `naming_server_socket`, updated in place by `connect_to_naming_server`. */
  class NamingConnection {
    var namingServerSocket: int

    /** `int naming_server_socket = -1;` */
    constructor ()
      ensures namingServerSocket == -1
    {
      namingServerSocket := -1;
    }

    method ConnectToNamingServer(newSocket: int, connects: bool) returns (sock: int, sent: seq<string>)
      modifies this
      ensures NamingConnect(old(namingServerSocket), newSocket, connects) == NamingConnectStep(namingServerSocket, sock, sent)
    {
      if namingServerSocket != -1 {
        return namingServerSocket, [];
      }
      namingServerSocket := newSocket;
      if newSocket == -1 || !connects {
        namingServerSocket := -1;
        return -1, [];
      }
      return namingServerSocket, ["CLIENT"];
    }
  }

  /**
   * `connect_to_storage_server` on the record it is given: a socket that is not
   * -1 is returned unchanged and nothing is connected; otherwise the new socket is
   * stored in the record (and stays there when connect fails) and is returned
   * when connect succeeds, -1 when it does not.
   */
  function ConnectToStorageServer(server: ServerInfo, newSocket: int, connects: bool): (r: (ServerInfo, int))
    ensures r.0.ip == server.ip && r.0.port == server.port
    ensures server.socket != -1 ==> r == (server, server.socket)
    ensures server.socket == -1 ==> r.0.socket == newSocket && r.1 == (if newSocket >= 0 && connects then newSocket else -1)
  {
    if server.socket != -1 then (server, server.socket)
    else
      var s := server.(socket := newSocket);
      if newSocket < 0 || !connects then (s, -1) else (s, newSocket)
  }

  /**
   * Lines 247-258 of `main` as written: the details from `get_storage_server`,
   * the `== -1` check and the storage connection; `None` is the `continue`
   * taken on either failure, otherwise the socket the command then uses.
   */
  function StorageSocketAsWritten(response: Option<string>, newSocket: int, connects: bool): Option<int>
  {
    var info := GetStorageServer(response);
    if info.socket == -1 then None
    else
      var (_, sock) := ConnectToStorageServer(info, newSocket, connects);
      if sock == -1 then None else Some(sock)
  }

  /**
   * As written, neither check can fire: the zeroed record carries socket 0, so
   * every command runs on socket 0 and no storage connection is ever attempted,
   * whatever the naming server replied.
   */
  lemma StorageSocketAsWrittenIsZero(response: Option<string>, newSocket: int, connects: bool)
    ensures StorageSocketAsWritten(response, newSocket, connects) == Some(0)
  {
  }

  /**
   * The evidently intended `get_storage_server`: no details when the receive fails
   * or the reply is not `"<ip> <port>"`; otherwise the record, not yet connected.
   */
  function GetStorageServerFixed(response: Option<string>): (info: Option<ServerInfo>)
    ensures info.Some? ==> info.value.socket == -1 && info.value.ip != []
  {
    match response {
      case None => None
      case Some(r) =>
        match ScanWord(r) {
          case None => None
          case Some((ip, rest)) =>
            match ScanInt(rest) {
              case None => None
              case Some((port, _)) => Some(ServerInfo(ip, port, -1))
            }
        }
    }
  }

  /** Lines 247-258 with the intended record: a command runs only on a storage connection that was made. */
  function StorageSocketFixed(response: Option<string>, newSocket: int, connects: bool): (r: Option<int>)
    ensures r.Some? <==> GetStorageServerFixed(response).Some? && newSocket >= 0 && connects
    ensures r.Some? ==> r.value == newSocket
  {
    match GetStorageServerFixed(response) {
      case None => None
      case Some(info) =>
        var (_, sock) := ConnectToStorageServer(info, newSocket, connects);
        if sock == -1 then None else Some(sock)
    }
  }

  // ---------------------------------------------------------------------------
  // The command prompt
  // ---------------------------------------------------------------------------

  datatype ClientCommand =
    | Skip
    | Exit
    | Upload(path1: string, path2: string)
    | Download(path1: string, path2: string)
    | CreateFile(path1: string)
    | CreateDir(path1: string)
    | Delete(path1: string)
    | Unknown

  /** The commands that first ask the naming server for a storage server. */
  predicate UsesStorage(c: ClientCommand) {
    c.Upload? || c.Download? || c.CreateFile? || c.CreateDir? || c.Delete?
  }

  /** `NthWord(ws, i)`: the `i`-th conversion of `"%s %s %s"`, empty when it did not happen. */
  function NthWord(ws: seq<string>, i: nat): string
  {
    if i < |ws| then ws[i] else ""
  }

  /** The commands the strcmp chain of `main` knows. */
  predicate IsKnownCommand(w: string) {
    w == "exit" || w == "upload" || w == "download" || w == "create_file" || w == "create_dir" || w == "delete"
  }

  /**
   * The strcmp chain on the fields `"%s %s %s"` converts from a line's words; a
   * field with nothing to convert stays empty, as `main` empties all three first.
   */
  function ClassifyWords(ws: seq<string>): (c: ClientCommand)
    requires forall i :: 0 <= i < |ws| ==> ws[i] != []
    ensures c == Skip <==> ws == []
    ensures c == Exit <==> ws != [] && ws[0] == "exit"
    ensures UsesStorage(c) ==> c.path1 == NthWord(ws, 1)
    ensures c == Unknown <==> ws != [] && !IsKnownCommand(ws[0])
    ensures ws != [] && ws[0] == "upload" ==> c == Upload(NthWord(ws, 1), NthWord(ws, 2))
    ensures ws != [] && ws[0] == "download" ==> c == Download(NthWord(ws, 1), NthWord(ws, 2))
    ensures ws != [] && ws[0] == "create_file" ==> c == CreateFile(NthWord(ws, 1))
    ensures ws != [] && ws[0] == "create_dir" ==> c == CreateDir(NthWord(ws, 1))
    ensures ws != [] && ws[0] == "delete" ==> c == Delete(NthWord(ws, 1))
  {
    var command, path1, path2 := NthWord(ws, 0), NthWord(ws, 1), NthWord(ws, 2);
    if command == "" then Skip
    else if command == "exit" then Exit
    else if command == "upload" then Upload(path1, path2)
    else if command == "download" then Download(path1, path2)
    else if command == "create_file" then CreateFile(path1)
    else if command == "create_dir" then CreateDir(path1)
    else if command == "delete" then Delete(path1)
    else Unknown
  }

  /** One line read at the prompt: `sscanf(line, "%s %s %s", command, path1, path2)` and the strcmp chain. */
  function ClassifyLine(line: string): ClientCommand
  {
    ClassifyWords(Words(line))
  }

  /**
   * A line typed as blank-separated words is classified by those words: the
   * `"%s %s %s"` scan reads back what was typed.
   */
  lemma ClassifyLineOfWords(ws: seq<string>)
    requires forall i :: 0 <= i < |ws| ==> IsWord(ws[i])
    ensures Words(Join(ws, ' ')) == ws
    ensures ClassifyLine(Join(ws, ' ')) == ClassifyWords(ws)
  {
    WordsOfJoin(ws);
  }

  /** The line `delete p` is the delete of p, which ends the lookups of the prompt loop. */
  lemma DeleteLineClassified(p: string)
    requires IsWord(p)
    ensures ClassifyLine("delete " + p) == Delete(p)
  {
    assert IsWord("delete");
    ClassifyLineOfWords(["delete", p]);
    assert Join(["delete", p], ' ') == "delete " + p;
  }

  /** The command each line read at the prompt is classified as. */
  function Classified(lines: seq<string>): (cmds: seq<ClientCommand>)
    ensures |cmds| == |lines|
    ensures forall i :: 0 <= i < |lines| ==> cmds[i] == ClassifyLine(lines[i])
  {
    seq(|lines|, i requires 0 <= i < |lines| => ClassifyLine(lines[i]))
  }

  /**
   * The lookups sent to the naming server for the commands read before `exit`
   * or the end of input. A `delete` ends them: after its lookup, `delete_item`
   * waits in a `recv` on the naming-server socket, where the naming server,
   * which only answers `GET_SERVER` requests, never sends anything.
   */
  function Lookups(cmds: seq<ClientCommand>): seq<string>
  {
    if cmds == [] || cmds[0] == Exit then []
    else if cmds[0].Delete? then [GetServerRequest(cmds[0].path1)]
    else (if UsesStorage(cmds[0]) then [GetServerRequest(cmds[0].path1)] else []) + Lookups(cmds[1..])
  }

  /** Whether the prompt loop goes on after command `c`: not after `exit`, nor after a `delete`, which blocks. */
  predicate Continues(c: ClientCommand) {
    c != Exit && !c.Delete?
  }

  /**
   * Nothing read after the first `delete` is looked up: the lookups are those of
   * the commands before it, then the `delete`'s own.
   */
  lemma {:induction false} DeleteEndsLookups(cmds: seq<ClientCommand>, i: nat)
    requires i < |cmds| && cmds[i].Delete?
    requires forall j :: 0 <= j < i ==> Continues(cmds[j])
    ensures Lookups(cmds) == Lookups(cmds[..i]) + [GetServerRequest(cmds[i].path1)]
  {
    if i > 0 {
      var rest := cmds[1..];
      assert forall j :: 0 <= j < i - 1 ==> rest[j] == cmds[j + 1];
      DeleteEndsLookups(rest, i - 1);
      assert cmds[..i][0] == cmds[0] && cmds[..i][1..] == rest[..i - 1];
      var sent := if UsesStorage(cmds[0]) then [GetServerRequest(cmds[0].path1)] else [];
      ConcatAssoc(sent, Lookups(rest[..i - 1]), [GetServerRequest(cmds[i].path1)]);
    } else {
      assert cmds[..0] == [];
    }
  }

  /** The commands up to the first `exit`, or all of them. */
  function UntilExit(cmds: seq<ClientCommand>): seq<ClientCommand>
  {
    if cmds == [] || cmds[0] == Exit then [] else [cmds[0]] + UntilExit(cmds[1..])
  }

  /** What is read before `exit` is a prefix of the commands, free of `exit`, and `exit` follows it if anything does. */
  lemma {:induction false} UntilExitShape(cmds: seq<ClientCommand>)
    ensures var before := UntilExit(cmds);
      && |before| <= |cmds| && before == cmds[..|before|]
      && (forall i :: 0 <= i < |before| ==> before[i] != Exit)
      && (|before| < |cmds| ==> cmds[|before|] == Exit)
  {
    if cmds != [] && cmds[0] != Exit {
      var rest := cmds[1..];
      UntilExitShape(rest);
      var before := UntilExit(cmds);
      var tail := UntilExit(rest);
      assert before == [cmds[0]] + tail;
      ConsPrefix(cmds, tail);
      forall i | 0 <= i < |before| ensures before[i] != Exit {
        if i > 0 {
          assert before[i] == tail[i - 1];
        }
      }
    }
  }

  /**
   * The lookups depend only on what is read before `exit`, and each is the
   * request for the first path of a storage command read there.
   */
  lemma {:induction false} LookupsBeforeExit(cmds: seq<ClientCommand>)
    ensures Lookups(cmds) == Lookups(UntilExit(cmds))
    ensures forall r :: r in Lookups(cmds) ==>
      exists c :: c in UntilExit(cmds) && UsesStorage(c) && r == GetServerRequest(c.path1)
  {
    if cmds != [] && cmds[0] != Exit {
      var rest := cmds[1..];
      LookupsBeforeExit(rest);
      var before := UntilExit(cmds);
      assert before == [cmds[0]] + UntilExit(rest);
      assert before[0] == cmds[0] && before[1..] == UntilExit(rest);
      assert Lookups(before) == Lookups(cmds);
      forall r | r in Lookups(cmds)
        ensures exists c :: c in before && UsesStorage(c) && r == GetServerRequest(c.path1)
      {
        if r !in Lookups(rest) {
          assert before[0] in before;
        } else {
          var c :| c in UntilExit(rest) && UsesStorage(c) && r == GetServerRequest(c.path1);
          assert c in before;
        }
      }
    }
  }

  /**
   * The prompt loop of `main`: one naming-server lookup per storage command, in
   * order, until `exit`, the end of input, or the first `delete`, whose
   * `delete_item` blocks in its `recv` on the naming-server socket. The storage
   * work after each lookup is not part of this model.
   */
  method PromptLoop(lines: seq<string>) returns (lookups: seq<string>)
    ensures lookups == Lookups(Classified(lines))
  {
    lookups := [];
    var i := 0;
    while i < |lines|
      invariant 0 <= i <= |lines|
      invariant lookups + Lookups(Classified(lines[i..])) == Lookups(Classified(lines))
    {
      var c := ClassifyLine(lines[i]);
      PromptStep(lines[i..]);
      assert lines[i..][0] == lines[i] && lines[i..][1..] == lines[i + 1..];
      if c == Exit {
        assert lookups + [] == lookups;
        return;
      }
      ghost var sofar := lookups;
      var sent: seq<string> := if UsesStorage(c) then [GetServerRequest(c.path1)] else [];
      lookups := lookups + sent;
      if c.Delete? {
        return;
      }
      ConcatAssoc(sofar, sent, Lookups(Classified(lines[i + 1..])));
      i := i + 1;
    }
    assert lines[i..] == [];
    assert lookups + [] == lookups;
  }

  /**
   * One pass of the prompt loop: the first line's lookup, if any, then the rest
   * unless it was `exit` or a `delete`.
   */
  lemma PromptStep(lines: seq<string>)
    requires lines != []
    ensures var c := ClassifyLine(lines[0]);
      Lookups(Classified(lines)) == if c == Exit then []
      else (if UsesStorage(c) then [GetServerRequest(c.path1)] else []) +
           (if Continues(c) then Lookups(Classified(lines[1..])) else [])
  {
    assert Classified(lines)[1..] == Classified(lines[1..]);
  }
}
