/**
 * The wire format between the processes: what one side formats, the other
 * side's sscanf and strtok calls read back. For each message the lemmas state
 * which fields survive the trip and under which conditions on the values.
 */
module Protocol {
  import opened Wrappers
  import opened CText
  import NamingTypes
  import NS = NamingServer
  import SN = StorageNode
  import Client
  import PN = ProtoNamingServer
  import PS = ProtoStorageNode

  /** A `%s` word holds neither a blank nor a newline. */
  lemma WordAvoids(p: string)
    requires IsWord(p)
    ensures NoChar(p, ' ') && NoChar(p, '\n')
  {
    assert IsSpace(' ') && IsSpace('\n');
  }

  lemma WordsAvoid(ps: seq<string>)
    requires forall i :: 0 <= i < |ps| ==> IsWord(ps[i])
    ensures forall i :: 0 <= i < |ps| ==> ps[i] != [] && NoChar(ps[i], ' ') && NoChar(ps[i], '\n')
  {
    forall i | 0 <= i < |ps|
      ensures ps[i] != [] && NoChar(ps[i], ' ') && NoChar(ps[i], '\n')
    {
      WordAvoids(ps[i]);
    }
  }

  /**
   * The `%[^\n]` after a white-space directive reads back a list of paths
   * joined by `d` behind one blank, provided no path holds a newline or `d` and
   * the first does not start with white space.
   */
  lemma {:induction false} JoinedLineRoundTrip(ps: seq<string>, d: char)
    requires ps != [] && d != '\n'
    requires forall i :: 0 <= i < |ps| ==> ps[i] != [] && NoChar(ps[i], d) && NoChar(ps[i], '\n')
    requires !IsSpace(ps[0][0])
    ensures ScanLine(SkipSpaces(" " + Join(ps, d))) == Some((Join(ps, d), ""))
  {
    var joined := Join(ps, d);
    JoinStart(ps, d);
    SkipSpacesOfSpace(joined);
    SkipSpacesNoop(joined);
    JoinAvoids(ps, d, '\n');
    ScanLineRoundTrip(joined);
  }

  // ---------------------------------------------------------------------------
  // Storage node registration: NFS/storageServer.c -> NFS/namingServer.c
  // ---------------------------------------------------------------------------

  /** Appending to `x + " " + f` is appending to the field after `x`. */
  lemma FieldStep(x: string, f: string, rest: string)
    ensures x + " " + f + rest == x + (" " + f + rest)
  {
    ConcatAssoc(x + " ", f, rest);
    ConcatAssoc(x, " ", f + rest);
    ConcatAssoc(" ", f, rest);
  }

  /** A blank and a `%d` field in front of `rest`, as sprintf writes them. */
  function Field(n: int, rest: string): string
  {
    " " + IntToString(n) + rest
  }

  /** `%d` reads a field back, and the field starts with white space for the conversion before it. */
  lemma ScanField(n: int, rest: string)
    requires rest == [] || IsSpace(rest[0])
    ensures ScanInt(Field(n, rest)) == Some((n, rest))
    ensures Field(n, rest) != [] && IsSpace(Field(n, rest)[0])
  {
    ScanIntAfterSpace(n, rest);
  }

  /** The header and what follows it, field by field. */
  lemma RegistrationHeaderShape(ip: string, nmPort: int, ssPort: int, clientPort: int, declared: int, tail: string)
    ensures SN.RegistrationHeaderText(ip, nmPort, ssPort, clientPort, declared) + tail ==
      ip + Field(nmPort, Field(ssPort, Field(clientPort, Field(declared, tail))))
  {
    var a, b, c, d := IntToString(nmPort), IntToString(ssPort), IntToString(clientPort), IntToString(declared);
    var h1 := ip + " " + a;
    var h2 := h1 + " " + b;
    var h3 := h2 + " " + c;
    var r4 := Field(declared, tail);
    FieldStep(h3, d, tail);
    var r3 := Field(clientPort, r4);
    FieldStep(h2, c, r4);
    var r2 := Field(ssPort, r3);
    FieldStep(h1, b, r3);
    FieldStep(ip, a, r2);
  }

  /** Each conversion of the naming server's parse reads its field of the header back. */
  lemma HeaderFieldScans(ip: string, nmPort: int, ssPort: int, clientPort: int, declared: int, tail: string)
    requires IsWord(ip)
    requires tail == [] || IsSpace(tail[0])
    ensures ScanWord(ip + Field(nmPort, Field(ssPort, Field(clientPort, Field(declared, tail))))) ==
      Some((ip, Field(nmPort, Field(ssPort, Field(clientPort, Field(declared, tail))))))
    ensures ScanInt(Field(nmPort, Field(ssPort, Field(clientPort, Field(declared, tail))))) ==
      Some((nmPort, Field(ssPort, Field(clientPort, Field(declared, tail)))))
    ensures ScanInt(Field(ssPort, Field(clientPort, Field(declared, tail)))) == Some((ssPort, Field(clientPort, Field(declared, tail))))
    ensures ScanInt(Field(clientPort, Field(declared, tail))) == Some((clientPort, Field(declared, tail)))
    ensures ScanInt(Field(declared, tail)) == Some((declared, tail))
  {
    ScanField(declared, tail);
    ScanField(clientPort, Field(declared, tail));
    ScanField(ssPort, Field(clientPort, Field(declared, tail)));
    ScanField(nmPort, Field(ssPort, Field(clientPort, Field(declared, tail))));
    ScanWordRoundTrip(ip, Field(nmPort, Field(ssPort, Field(clientPort, Field(declared, tail)))));
  }

  /** The naming server's parse yields its six fields when each conversion succeeds in turn. */
  lemma ParseRegistrationOfFields(buffer: string, ip: string, r1: string, nmPort: int, r2: string, ssPort: int, r3: string,
                                  clientPort: int, r4: string, declared: int, r5: string, text: string)
    requires ScanWord(buffer) == Some((ip, r1)) && ScanInt(r1) == Some((nmPort, r2)) && ScanInt(r2) == Some((ssPort, r3))
    requires ScanInt(r3) == Some((clientPort, r4)) && ScanInt(r4) == Some((declared, r5))
    requires text == match ScanLine(SkipSpaces(r5)) { case None => "" case Some((line, _)) => line }
    ensures NS.ParseRegistration(buffer) == Some(NS.RegistrationHeader(ip, nmPort, ssPort, clientPort, declared, text))
  {
  }

  /** What follows the declared count: nothing, or the paths joined behind one blank, read back whole. */
  lemma PathsTextRoundTrip(paths: seq<string>)
    requires forall i :: 0 <= i < |paths| ==> IsWord(paths[i])
    ensures SpacePrefixed(paths) == [] || IsSpace(SpacePrefixed(paths)[0])
    ensures Join(paths, ' ') == match ScanLine(SkipSpaces(SpacePrefixed(paths))) { case None => "" case Some((line, _)) => line }
  {
    WordsAvoid(paths);
    if paths != [] {
      SpacePrefixedIsJoin(paths);
      JoinStart(paths, ' ');
      JoinedLineRoundTrip(paths, ' ');
    }
  }

  /** The space tokenisation of joined words stores the first MAX_PATHS_PER_SERVER of them, cut to fit. */
  lemma RegisteredPathsOfJoin(paths: seq<string>)
    requires forall i :: 0 <= i < |paths| ==> IsWord(paths[i])
    ensures NS.RegisteredPaths(Join(paths, ' ')) ==
      TruncateAll(Take(paths, NamingTypes.MAX_PATHS_PER_SERVER), NamingTypes.MAX_PATH_LENGTH - 1)
  {
    WordsAvoid(paths);
    TokensOfJoin(paths, ' ');
  }

  /**
   * Round trip of the registration: for an ip and paths without white space,
   * the naming server's parse recovers the ip, the three ports, the declared
   * count (which equals the number of paths appended) and the joined paths,
   * and it stores the first MAX_PATHS_PER_SERVER paths, each cut to fit its field.
   */
  lemma {:induction false} RegistrationRoundTrip(ip: string, nmPort: int, ssPort: int, clientPort: int, paths: seq<string>)
    requires IsWord(ip)
    requires forall i :: 0 <= i < |paths| ==> IsWord(paths[i])
    ensures NS.ParseRegistration(SN.RegistrationMessage(ip, nmPort, ssPort, clientPort, paths)) ==
      Some(NS.RegistrationHeader(ip, nmPort, ssPort, clientPort, |paths|, Join(paths, ' ')))
    ensures NS.RegisteredPaths(Join(paths, ' ')) ==
      TruncateAll(Take(paths, NamingTypes.MAX_PATHS_PER_SERVER), NamingTypes.MAX_PATH_LENGTH - 1)
  {
    PathsTextRoundTrip(paths);
    RegistrationHeaderRoundTrip(ip, nmPort, ssPort, clientPort, |paths|, SpacePrefixed(paths), Join(paths, ' '));
    RegisteredPathsOfJoin(paths);
  }

  /** The header round trip, for any text behind it that is empty or starts with white space. */
  lemma RegistrationHeaderRoundTrip(ip: string, nmPort: int, ssPort: int, clientPort: int, declared: int, tail: string, text: string)
    requires IsWord(ip)
    requires tail == [] || IsSpace(tail[0])
    requires text == match ScanLine(SkipSpaces(tail)) { case None => "" case Some((line, _)) => line }
    ensures NS.ParseRegistration(SN.RegistrationHeaderText(ip, nmPort, ssPort, clientPort, declared) + tail) ==
      Some(NS.RegistrationHeader(ip, nmPort, ssPort, clientPort, declared, text))
  {
    RegistrationHeaderShape(ip, nmPort, ssPort, clientPort, declared, tail);
    HeaderFieldScans(ip, nmPort, ssPort, clientPort, declared, tail);
    ParseRegistrationOfFields(SN.RegistrationHeaderText(ip, nmPort, ssPort, clientPort, declared) + tail,
      ip, Field(nmPort, Field(ssPort, Field(clientPort, Field(declared, tail)))),
      nmPort, Field(ssPort, Field(clientPort, Field(declared, tail))),
      ssPort, Field(clientPort, Field(declared, tail)),
      clientPort, Field(declared, tail), declared, tail, text);
  }

  // ---------------------------------------------------------------------------
  // Lookup: NFS/client.c <-> NFS/namingServer.c
  // ---------------------------------------------------------------------------

  /** The request a client sends is read as the command `GET_SERVER` and the path. */
  lemma LookupRequestWords(path: string)
    requires IsWord(path)
    ensures Words(Client.GetServerRequest(path)) == ["GET_SERVER", path]
  {
    var ws := ["GET_SERVER", path];
    assert IsWord(ws[0]);
    WordsOfJoin(ws);
    LookupRequestIsJoin(path);
  }

  /** The request is the command and the path joined by a blank. */
  lemma LookupRequestIsJoin(path: string)
    ensures Client.GetServerRequest(path) == Join(["GET_SERVER", path], ' ')
  {
    var ws := ["GET_SERVER", path];
    assert ws[1..] == [path];
    assert Join(ws, ' ') == ws[0] + [' '] + path;
    assert ws[0] + [' '] == "GET_SERVER ";
  }

  /** The naming server answers a client's request for `path` from the index entry for that path. */
  lemma LookupRequestRoundTrip(index: seq<seq<NamingTypes.HashNode>>, registry: seq<NamingTypes.StorageServer>, path: string)
    requires |index| == NamingTypes.HASH_TABLE_SIZE && NS.RefersBelow(index, |registry|)
    requires IsWord(path)
    ensures NS.Lookup(index, path).None? ==> NS.ClientReply(index, registry, Client.GetServerRequest(path)) == Some(NS.NO_SERVER_FOUND)
    ensures NS.Lookup(index, path).Some? ==>
      NS.Lookup(index, path).value < |registry| &&
      NS.ClientReply(index, registry, Client.GetServerRequest(path)) == Some(NS.AddressReply(registry[NS.Lookup(index, path).value]))
  {
    LookupRequestWords(path);
    ClientReplyOfWords(index, registry, Client.GetServerRequest(path), path);
    NS.LookupBelow(index, |registry|, path);
  }

  /** A message read as `GET_SERVER` and a path is answered with the reply for that path. */
  lemma ClientReplyOfWords(index: seq<seq<NamingTypes.HashNode>>, registry: seq<NamingTypes.StorageServer>, message: string, path: string)
    requires |index| == NamingTypes.HASH_TABLE_SIZE && NS.RefersBelow(index, |registry|)
    requires Words(message) == ["GET_SERVER", path]
    ensures NS.ClientReply(index, registry, message) == Some(NS.PathReply(index, registry, path))
  {
  }

  /** The client's `"%s %d"` parse recovers the ip and the client port the naming server formatted. */
  lemma AddressReplyRoundTrip(s: NamingTypes.StorageServer)
    requires IsWord(s.ipAddress)
    ensures Client.GetStorageServer(Some(NS.AddressReply(s))) == Client.ServerInfo(s.ipAddress, s.clientPort, 0)
  {
    var rest := " " + IntToString(s.clientPort);
    ConcatAssoc(s.ipAddress, " ", IntToString(s.clientPort));
    ScanWordRoundTrip(s.ipAddress, rest);
    ScanIntAtEnd(s.clientPort);
  }

  /** A `%d` after a blank fails on text that starts with neither a sign nor a digit. */
  lemma ScanIntOfLetter(t: string)
    requires t != [] && !IsSpace(t[0]) && !IsDigit(t[0]) && t[0] != '-' && t[0] != '+'
    ensures ScanInt(" " + t) == None
  {
    SkipSpacesOfSpace(t);
    SkipSpacesNoop(t);
  }

  lemma MissReplyStart()
    ensures |NS.NO_SERVER_FOUND| >= 4
    ensures NS.NO_SERVER_FOUND[0] == 'N' && NS.NO_SERVER_FOUND[1] == 'o'
    ensures NS.NO_SERVER_FOUND[2] == ' ' && NS.NO_SERVER_FOUND[3] == 's'
  {
  }

  /** The miss reply parses as the ip `"No"` with the port left at 0. */
  lemma MissReplyParse()
    ensures Client.GetStorageServer(Some(NS.NO_SERVER_FOUND)) == Client.ServerInfo("No", 0, 0)
  {
    MissReplyStart();
    NoWordParse(NS.NO_SERVER_FOUND);
  }

  /** A reply that starts with the word `No` and then a letter gives that word as the ip and no port. */
  lemma NoWordParse(s: string)
    requires |s| >= 4 && s[0] == 'N' && s[1] == 'o' && s[2] == ' ' && s[3] == 's'
    ensures Client.GetStorageServer(Some(s)) == Client.ServerInfo("No", 0, 0)
  {
    var rest := s[2..];
    SplitAt(s, 2);
    assert s[..2] == "No";
    ScanWordRoundTrip("No", rest);
    SplitAt(rest, 1);
    assert rest[..1] == " ";
    ScanIntOfLetter(rest[1..]);
  }

  lemma SplitAt<T>(s: seq<T>, k: nat)
    requires k <= |s|
    ensures s == s[..k] + s[k..]
  {
  }

  /**
   * End to end: for a whitespace-free path, what the client makes of the naming
   * server's answer is the registered ip and client port of the slot the index
   * names, or `("No", 0)` when the path is not indexed.
   */
  lemma LookupEndToEnd(index: seq<seq<NamingTypes.HashNode>>, registry: seq<NamingTypes.StorageServer>, path: string)
    requires |index| == NamingTypes.HASH_TABLE_SIZE && NS.RefersBelow(index, |registry|)
    requires forall i :: 0 <= i < |registry| ==> IsWord(registry[i].ipAddress)
    requires IsWord(path)
    ensures NS.ClientReply(index, registry, Client.GetServerRequest(path)).Some?
    ensures NS.Lookup(index, path).None? ==>
      Client.GetStorageServer(NS.ClientReply(index, registry, Client.GetServerRequest(path))) == Client.ServerInfo("No", 0, 0)
    ensures NS.Lookup(index, path).Some? ==>
      var s := registry[NS.Lookup(index, path).value];
      Client.GetStorageServer(NS.ClientReply(index, registry, Client.GetServerRequest(path))) ==
        Client.ServerInfo(s.ipAddress, s.clientPort, 0)
  {
    LookupRequestRoundTrip(index, registry, path);
    match NS.Lookup(index, path) {
      case None => MissReplyParse();
      case Some(slot) => AddressReplyRoundTrip(registry[slot]);
    }
  }

  // ---------------------------------------------------------------------------
  // Client -> storage node
  // ---------------------------------------------------------------------------

  /** `create_item`'s message reaches the storage node's dispatch as an ignored command. */
  lemma CreateIsIgnored(path: string, isDirectory: int)
    requires IsWord(path)
    ensures SN.DataCommand(Client.CreateMessage(path, isDirectory)) == SN.Ignored
  {
    var target := path + (if isDirectory != 0 then "/" else "");
    assert IsWord(target) by {
      forall i | 0 <= i < |target| ensures !IsSpace(target[i]) {
        if i < |path| {
          assert target[i] == path[i];
        }
      }
    }
    assert IsWord("CREATE");
    assert Client.CreateMessage(path, isDirectory) == "CREATE" + " " + target;
    SN.DataCommandOfRequest("CREATE", target);
  }

  // ---------------------------------------------------------------------------
  // The prototype's registration
  // ---------------------------------------------------------------------------

  /** The prototype's message with each field behind the white space that precedes it. */
  lemma ProtoMessageShape(ip: string, port: int, paths: seq<string>)
    ensures PS.RegistrationMessage(ip, port, paths) == "STORAGE " + (ip + Field(port, " " + Join(paths, ',')))
  {
    var p, joined := IntToString(port), Join(paths, ',');
    var h1 := "STORAGE " + ip;
    assert PS.RegistrationMessage(ip, port, paths) == h1 + " " + p + " " + joined;
    ConcatAssoc(h1 + " " + p, " ", joined);
    FieldStep(h1, p, " " + joined);
    ConcatAssoc("STORAGE ", ip, " " + p + (" " + joined));
  }

  /** The `strncmp` and the literal of the format both match the tag the message starts with. */
  lemma StorageTag(x: string)
    ensures HasPrefix("STORAGE " + x, "STORAGE") && ("STORAGE " + x)[7..] == " " + x
    ensures !HasPrefix("STORAGE " + x, "CLIENT")
  {
    var m := "STORAGE " + x;
    assert m[..7] == "STORAGE";
    assert m[7..] == " " + x;
    assert m[0] == 'S';
  }

  /** The prototype's parse once the tag, the word and the integer are read: the rest of the line decides. */
  lemma ParseHeaderOfScans(buffer: string, ip: string, r1: string, port: int, r2: string)
    requires HasPrefix(buffer, "STORAGE")
    requires ScanWord(buffer[7..]) == Some((ip, r1)) && ScanInt(r1) == Some((port, r2))
    ensures PN.ParseHeader(buffer) ==
      match ScanLine(SkipSpaces(r2)) { case None => None case Some((text, _)) => Some(PN.ProtoHeader(ip, port, text)) }
  {
  }

  /** The prototype's parse of its own header, for any text after the port that is empty or starts with white space. */
  lemma ProtoHeaderRoundTrip(ip: string, port: int, tail: string)
    requires IsWord(ip)
    requires tail == [] || IsSpace(tail[0])
    ensures PN.ParseHeader("STORAGE " + (ip + Field(port, tail))) ==
      match ScanLine(SkipSpaces(tail)) { case None => None case Some((text, _)) => Some(PN.ProtoHeader(ip, port, text)) }
  {
    StorageTag(ip + Field(port, tail));
    ScanWordOfSpace(ip + Field(port, tail));
    ScanField(port, tail);
    ScanWordRoundTrip(ip, Field(port, tail));
    ParseHeaderOfScans("STORAGE " + (ip + Field(port, tail)), ip, Field(port, tail), port, tail);
  }

  /** The comma tokenisation of joined paths stores the first MAX_PATHS_PER_SERVER of them. */
  lemma ProtoPathsOfJoin(paths: seq<string>)
    requires forall i :: 0 <= i < |paths| ==> paths[i] != [] && NoChar(paths[i], ',')
    ensures PN.ProtoPaths(Join(paths, ',')) == TruncateAll(Take(paths, PN.MAX_PATHS_PER_SERVER), PN.MAX_PATH_LENGTH)
  {
    TokensOfJoin(paths, ',');
  }

  /**
   * Round trip of the prototype's registration: for a word ip and a non-empty
   * list of non-empty paths with no comma or newline, the first not starting
   * with white space, the parse recovers the ip, the port and the joined list,
   * and the comma tokenisation stores the first MAX_PATHS_PER_SERVER paths.
   */
  lemma ProtoRegistrationRoundTrip(ip: string, port: int, paths: seq<string>)
    requires IsWord(ip)
    requires paths != [] && paths[0] != [] && !IsSpace(paths[0][0])
    requires forall i :: 0 <= i < |paths| ==> paths[i] != [] && NoChar(paths[i], ',') && NoChar(paths[i], '\n')
    ensures PN.ParseHeader(PS.RegistrationMessage(ip, port, paths)) == Some(PN.ProtoHeader(ip, port, Join(paths, ',')))
    ensures PN.ProtoPaths(Join(paths, ',')) == TruncateAll(Take(paths, PN.MAX_PATHS_PER_SERVER), PN.MAX_PATH_LENGTH)
  {
    ProtoMessageShape(ip, port, paths);
    ProtoHeaderRoundTrip(ip, port, " " + Join(paths, ','));
    JoinedLineRoundTrip(paths, ',');
    ProtoPathsOfJoin(paths);
  }

  /** With no paths `%[^\n]` matches nothing, the parse yields two fields and the registration is dropped. */
  lemma ProtoZeroPathsDropped(ip: string, port: int)
    requires IsWord(ip)
    ensures PN.ParseHeader(PS.RegistrationMessage(ip, port, [])) == None
  {
    ProtoMessageShape(ip, port, []);
    assert " " + Join([], ',') == " ";
    ProtoHeaderRoundTrip(ip, port, " ");
    SkipSpacesOfSpace("");
  }

  /**
   * The prototype's naming server reads the identity and the registration in
   * two receives, but the storage node sends its message once. If that one
   * message is the first receive, it selects registration; the registration
   * goes through only if the same text arrives a second time, and is not
   * processed when the second receive fails.
   */
  lemma ProtoSingleSend(ip: string, port: int, paths: seq<string>, count: nat, socket: int)
    requires IsWord(ip)
    requires paths != [] && paths[0] != [] && !IsSpace(paths[0][0])
    requires forall i :: 0 <= i < |paths| ==> paths[i] != [] && NoChar(paths[i], ',') && NoChar(paths[i], '\n')
    ensures PN.Identify(PS.RegistrationMessage(ip, port, paths)) == PN.StorageRegistration
    ensures PN.RegistrationResult(PS.RegistrationMessage(ip, port, paths), None, count, socket) == PN.NotProcessed
    ensures count < PN.MAX_STORAGE_SERVERS ==>
      var msg := PS.RegistrationMessage(ip, port, paths);
      PN.RegistrationResult(msg, Some(msg), count, socket) ==
        PN.Registered(PN.StorageServerInfo(ip, port, TruncateAll(Take(paths, PN.MAX_PATHS_PER_SERVER), PN.MAX_PATH_LENGTH), socket))
  {
    var msg := PS.RegistrationMessage(ip, port, paths);
    ProtoMessageShape(ip, port, paths);
    StorageTag(ip + Field(port, " " + Join(paths, ',')));
    OverlaySelf(msg);
    ProtoRegistrationRoundTrip(ip, port, paths);
  }

  /** A second receive of the same text leaves the buffer as it was. */
  lemma OverlaySelf(buffer: string)
    ensures PN.Overlay(buffer, buffer) == buffer
  {
  }
}
