/**
 * The earlier prototype's storage node (1_Project_NFS/NFS/storageServer/storageServer.c):
 * a global list of at most MAX_PATHS paths taken from the command line, the
 * registration message it sends, the `READ` membership check answered to a
 * client, and the `UPDATE_PATH` append ordered by the naming server.
 */
module ProtoStorageNode {
  import opened Wrappers
  import opened CText

  const BUFFER_SIZE: nat := 1024
  const MAX_PATHS: nat := 10

  const FILE_NOT_FOUND := "Error: File not found\n"

  /** `snprintf(buffer, BUFFER_SIZE, "Data from file: %s - Example Data Content\n", requested_path)`. */
  function DataReply(path: string): string
  {
    "Data from file: " + path + " - Example Data Content\n"
  }

  /**
   * `sscanf(buffer, tag + " %s", word)` once `strncmp` has matched the tag: the
   * word after it. A buffer with nothing after the tag leaves the word
   * uninitialised in the source; the model takes it as empty.
   */
  function WordAfter(buffer: string, tag: string): (w: string)
    requires HasPrefix(buffer, tag)
    ensures w == [] || IsWord(w)
  {
    match ScanWord(buffer[|tag|..]) {
      case None => ""
      case Some((w, _)) => w
    }
  }

  /**
   * The reply `handle_client_request` sends for one received request: a `READ`
   * request is answered from the path list, any other request gets none.
   */
  function RequestReply(paths: seq<string>, received: Option<string>): (r: Option<string>)
    ensures r.Some? <==> HasPrefix(received.GetOr(""), "READ")
    ensures r.Some? ==>
      var p := WordAfter(received.GetOr(""), "READ");
      r.value == if p in paths then DataReply(p) else FILE_NOT_FOUND
  {
    var buffer := received.GetOr("");
    if !HasPrefix(buffer, "READ") then None
    else
      var p := WordAfter(buffer, "READ");
      Some(if p in paths then DataReply(p) else FILE_NOT_FOUND)
  }

  /** The path an `UPDATE_PATH` message carries, or None for any other message. */
  function UpdatedPath(message: string): (r: Option<string>)
    ensures r.Some? <==> HasPrefix(message, "UPDATE_PATH")
  {
    if HasPrefix(message, "UPDATE_PATH") then Some(WordAfter(message, "UPDATE_PATH")) else None
  }

  /** What one message adds to the path list: its path if it is an `UPDATE_PATH` message, else nothing. */
  function Carried(message: string): (ps: seq<string>)
    ensures |ps| <= 1
  {
    match UpdatedPath(message) {
      case Some(p) => [p]
      case None => []
    }
  }

  /** The word a client or the naming server writes after a tag is the word `sscanf` reads back. */
  lemma WordAfterTag(tag: string, p: string)
    requires IsWord(p)
    ensures HasPrefix(tag + " " + p, tag) && WordAfter(tag + " " + p, tag) == p
  {
    var m := tag + " " + p;
    assert m[..|tag|] == tag;
    assert m[|tag|..] == " " + p;
    ScanWordOfSpace(p);
    ScanWordRoundTrip(p, "");
    assert p + "" == p;
  }

  /** A request `READ <p>` is answered with the data reply iff `p` is listed, and with the not-found reply otherwise. */
  lemma ReadRequestReply(paths: seq<string>, p: string)
    requires IsWord(p)
    ensures RequestReply(paths, Some("READ " + p)) == Some(if p in paths then DataReply(p) else FILE_NOT_FOUND)
  {
    WordAfterTag("READ", p);
    assert "READ" + " " + p == "READ " + p;
  }

  /** The message `UPDATE_PATH <p>` carries exactly `p`. */
  lemma UpdatePathMessage(p: string)
    requires IsWord(p)
    ensures UpdatedPath("UPDATE_PATH " + p) == Some(p)
    ensures Carried("UPDATE_PATH " + p) == [p]
  {
    WordAfterTag("UPDATE_PATH", p);
    assert "UPDATE_PATH" + " " + p == "UPDATE_PATH " + p;
  }

  /** The `UPDATE_PATH` messages for a list of paths, in order. */
  function UpdateMessages(ps: seq<string>): (ms: seq<string>)
    ensures |ms| == |ps|
  {
    if ps == [] then [] else UpdateMessages(ps[..|ps| - 1]) + ["UPDATE_PATH " + ps[|ps| - 1]]
  }

  /** The naming server's `UPDATE_PATH` messages for word paths make the listener append exactly those paths, in order. */
  lemma {:induction false} UpdatesOfMessages(ps: seq<string>)
    requires forall i :: 0 <= i < |ps| ==> IsWord(ps[i])
    ensures Updates(UpdateMessages(ps)) == ps
  {
    if ps != [] {
      var init := ps[..|ps| - 1];
      var last := ps[|ps| - 1];
      assert forall i :: 0 <= i < |init| ==> init[i] == ps[i];
      UpdatesOfMessages(init);
      UpdatesSnoc(UpdateMessages(init), "UPDATE_PATH " + last);
      UpdatePathMessage(last);
      SnocOfLast(ps);
    }
  }

  lemma UpdatesSnoc(ms: seq<string>, m: string)
    ensures Updates(ms + [m]) == Updates(ms) + Carried(m)
  {
    assert (ms + [m])[..|ms|] == ms;
  }

  lemma SnocOfLast<T>(s: seq<T>)
    requires s != []
    ensures s[..|s| - 1] + [s[|s| - 1]] == s
  {
  }

  /** The paths the `UPDATE_PATH` messages among `messages` carry, in order. */
  function Updates(messages: seq<string>): seq<string>
  {
    if messages == [] then [] else Updates(messages[..|messages| - 1]) + Carried(messages[|messages| - 1])
  }

  /** `snprintf(buffer, BUFFER_SIZE, "STORAGE %s %d ", naming_server_ip, storage_server_port)`. */
  function RegistrationHeader(namingServerIp: string, storageServerPort: int): string
  {
    "STORAGE " + namingServerIp + " " + IntToString(storageServerPort) + " "
  }

  /** The registration message: the header and the paths joined with commas. */
  function RegistrationMessage(namingServerIp: string, storageServerPort: int, paths: seq<string>): string
  {
    RegistrationHeader(namingServerIp, storageServerPort) + Join(paths, ',')
  }

  /** One more message of the naming-server loop extends the updates by what it carries. */
  lemma UpdatesStep(messages: seq<string>, i: nat)
    requires i < |messages|
    ensures Updates(messages[..i + 1]) == Updates(messages[..i]) + Carried(messages[i])
  {
    assert messages[..i + 1][..i] == messages[..i];
  }

  /** The strcat loop's text after `i` of `n` paths: the first `i` joined, and a comma when more follow. */
  function JoinedSoFar(paths: seq<string>, i: nat): string
    requires i <= |paths|
  {
    if i == 0 then "" else Join(paths[..i], ',') + (if i < |paths| then "," else "")
  }

  /** One pass of the strcat loop appends the next path and, unless it is the last, a comma. */
  lemma {:induction false} JoinedSoFarStep(paths: seq<string>, i: nat)
    requires i < |paths|
    ensures JoinedSoFar(paths, i + 1) == JoinedSoFar(paths, i) + paths[i] + (if i < |paths| - 1 then "," else "")
  {
    var tail := if i < |paths| - 1 then "," else "";
    if i == 0 {
      assert paths[..1] == [paths[0]];
    } else {
      assert paths[..i + 1] == paths[..i] + [paths[i]];
      JoinSnoc(paths[..i], paths[i], ',');
      calc {
        JoinedSoFar(paths, i + 1);
        Join(paths[..i + 1], ',') + tail;
        Join(paths[..i], ',') + [','] + paths[i] + tail;
        (Join(paths[..i], ',') + ",") + paths[i] + tail;
        JoinedSoFar(paths, i) + paths[i] + tail;
      }
    }
  }

  /** The strcat loop's invariant survives one pass. */
  lemma BuildStep(header: string, msg: string, paths: seq<string>, i: nat, piece: string)
    requires i < |paths| && msg == header + JoinedSoFar(paths, i)
    requires piece == paths[i] + (if i < |paths| - 1 then "," else "")
    ensures msg + piece == header + JoinedSoFar(paths, i + 1)
  {
    JoinedSoFarStep(paths, i);
    ConcatAssoc(JoinedSoFar(paths, i), paths[i], if i < |paths| - 1 then "," else "");
    ConcatAssoc(header, JoinedSoFar(paths, i), piece);
  }

  /** After the last pass the loop has appended exactly the comma-joined list. */
  lemma JoinedSoFarAll(paths: seq<string>)
    ensures JoinedSoFar(paths, |paths|) == Join(paths, ',')
  {
    if paths != [] {
      assert paths[..|paths|] == paths;
    }
  }

  class ProtoStorageNode {
    /** The global `paths[MAX_PATHS][BUFFER_SIZE]`. */
    const paths: array<string>
    var numPaths: nat

    ghost predicate Valid()
      reads this
    {
      paths.Length == MAX_PATHS && numPaths <= MAX_PATHS
    }

    /** The paths the node is responsible for, `paths[0..num_paths)`. */
    function Paths(): (ps: seq<string>)
      reads this, paths
      requires Valid()
      ensures |ps| == numPaths
    {
      paths[..numPaths]
    }

    /** The zero-initialised globals. */
    constructor ()
      ensures Valid() && fresh(paths) && Paths() == []
    {
      paths := new string[MAX_PATHS](_ => "");
      numPaths := 0;
    }

    /**
     * `main`'s path setup: `num_paths = argc - 4` and `paths[i]` is strncpy'd
     * from `argv[4 + i]`. With fewer than four arguments `main` stops. The
     * source does not check the bound: more than MAX_PATHS paths overflow the
     * array, so the model requires at most MAX_PATHS of them.
     */
    method LoadArguments(argv: seq<string>) returns (started: bool)
      requires Valid()
      requires |argv| <= 4 + MAX_PATHS
      modifies this, paths
      ensures Valid()
      ensures started <==> |argv| >= 4
      ensures started ==> Paths() == TruncateAll(argv[4..], BUFFER_SIZE)
      ensures !started ==> numPaths == old(numPaths) && paths[..] == old(paths[..])
    {
      if |argv| < 4 {
        return false;
      }
      numPaths := |argv| - 4;
      var i := 0;
      while i < numPaths
        invariant 0 <= i <= numPaths && numPaths == |argv| - 4
        invariant forall k :: 0 <= k < i ==> paths[k] == Take(argv[4 + k], BUFFER_SIZE)
      {
        paths[i] := Take(argv[4 + i], BUFFER_SIZE);
        i := i + 1;
      }
      started := true;
    }

    /**
     * `register_with_naming_server`'s message: the header with the naming
     * server's own ip, then a strcat of each path and of a comma after every
     * path but the last.
     */
    method BuildRegistrationMessage(namingServerIp: string, storageServerPort: int) returns (msg: string)
      requires Valid()
      ensures msg == RegistrationMessage(namingServerIp, storageServerPort, Paths())
    {
      var header := RegistrationHeader(namingServerIp, storageServerPort);
      ghost var ps := Paths();
      msg := header;
      var i := 0;
      while i < numPaths
        invariant 0 <= i <= numPaths
        invariant msg == header + JoinedSoFar(ps, i)
      {
        var piece := paths[i] + (if i < numPaths - 1 then "," else "");
        BuildStep(header, msg, ps, i, piece);
        msg := msg + piece;
        i := i + 1;
      }
      JoinedSoFarAll(ps);
    }

    /**
     * `handle_client_request`: a `READ <p>` request is answered with the data
     * reply when the found-flag loop meets `p` among the paths, and with the
     * not-found reply otherwise; any other request gets no reply.
     */
    method HandleClientRequest(received: Option<string>) returns (reply: Option<string>)
      requires Valid()
      ensures reply == RequestReply(Paths(), received)
    {
      var buffer := received.GetOr("");
      if !HasPrefix(buffer, "READ") {
        return None;
      }
      var requested := WordAfter(buffer, "READ");
      var found := false;
      var i := 0;
      while i < numPaths
        invariant 0 <= i <= numPaths
        invariant found <==> requested in paths[..i]
        invariant found ==> requested in Paths()
      {
        if paths[i] == requested {
          found := true;
          assert paths[i] == Paths()[i];
          break;
        }
        assert paths[..i + 1] == paths[..i] + [paths[i]];
        i := i + 1;
      }
      assert !found ==> paths[..i] == Paths();
      if found {
        reply := Some(DataReply(requested));
      } else {
        reply := Some(FILE_NOT_FOUND);
      }
    }

    /**
     * One message of `listen_for_naming_server`: `UPDATE_PATH <p>` stores `p` at
     * `paths[num_paths]` and increments `num_paths`; other messages change
     * nothing. The source has no bound check, so the model requires room.
     */
    method HandleNamingMessage(message: string)
      requires Valid()
      requires numPaths + |Carried(message)| <= MAX_PATHS
      modifies this, paths
      ensures Valid()
      ensures Paths() == old(Paths()) + Carried(message)
      ensures forall k :: numPaths <= k < MAX_PATHS ==> paths[k] == old(paths[k])
    {
      if HasPrefix(message, "UPDATE_PATH") {
        // strncpy(.., BUFFER_SIZE) copies the whole word: it came from a BUFFER_SIZE buffer
        var newPath := WordAfter(message, "UPDATE_PATH");
        paths[numPaths] := newPath;
        numPaths := numPaths + 1;
        assert Paths() == old(Paths()) + [newPath];
      }
    }

    /**
     * `listen_for_naming_server`: handles each message until its recv returns
     * <= 0 (the end of `messages`). The paths already listed stay in place and
     * the updates follow them in order.
     */
    method ListenForNamingServer(messages: seq<string>)
      requires Valid()
      requires numPaths + |Updates(messages)| <= MAX_PATHS
      modifies this, paths
      ensures Valid()
      ensures Paths() == old(Paths()) + Updates(messages)
    {
      ghost var start := Paths();
      var i := 0;
      while i < |messages|
        invariant 0 <= i <= |messages|
        invariant Valid()
        invariant Paths() == start + Updates(messages[..i])
      {
        ghost var carried := Carried(messages[i]);
        ghost var before := Updates(messages[..i]);
        assert Updates(messages[..i + 1]) == before + carried by {
          UpdatesStep(messages, i);
        }
        assert |before| + |carried| <= |Updates(messages)| by {
          UpdatesPrefixBound(messages, i + 1);
        }
        HandleNamingMessage(messages[i]);
        ConcatAssoc(start, before, carried);
        i := i + 1;
      }
      assert messages[..i] == messages;
    }
  }

  /** The updates of a prefix of the messages are no more than those of all of them. */
  lemma {:induction false} UpdatesPrefixBound(messages: seq<string>, i: nat)
    requires i <= |messages|
    ensures |Updates(messages[..i])| <= |Updates(messages)|
    decreases |messages| - i
  {
    if i < |messages| {
      var shorter, longer := Updates(messages[..i]), Updates(messages[..i + 1]);
      UpdatesPrefixBound(messages, i + 1);
      UpdatesStep(messages, i);
      assert |shorter| <= |longer|;
      assert |longer| <= |Updates(messages)|;
    } else {
      assert messages[..i] == messages;
    }
  }
}
