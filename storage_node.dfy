/**
 * The storage node of NFS/storageServer.c: the recursive directory walk that
 * collects the files it serves, the collection over its command-line arguments,
 * the registration message it sends to the naming server, and the command
 * dispatch of a data-client connection. The file system is an abstract tree that
 * the walk reads: a directory that opendir cannot open has no listing.
 */
module StorageNode {
  import opened Wrappers
  import opened CText

  const MAX_PATH_LENGTH: nat := 256

  /** The first dimension of `accessible_paths[100][MAX_PATH_LENGTH]` in `main`. */
  const MAX_ACCESSIBLE_PATHS: nat := 100

  /** What `readdir` reports of an entry's `d_type`; a directory carries what opendir yields for it. */
  datatype EntryKind = Regular | Directory(contents: Option<Listing>) | OtherKind

  datatype DirEntry = DirEntry(name: string, kind: EntryKind)

  /** The entries of an open directory, in `readdir` order, `.` and `..` included. */
  datatype Listing = Listing(entries: seq<DirEntry>)

  /** One command-line path argument and what opendir yields for it (`None`: not a directory). */
  datatype PathArg = PathArg(path: string, listing: Option<Listing>)

  /** `snprintf(full_path, MAX_PATH_LENGTH, "%s/%s", base, name)`. */
  function ChildPath(base: string, name: string): (full: string)
    ensures |full| == if |base| + 1 + |name| < MAX_PATH_LENGTH then |base| + 1 + |name| else MAX_PATH_LENGTH - 1
    ensures full == (base + "/" + name)[..|full|]
  {
    Take(base + "/" + name, MAX_PATH_LENGTH - 1)
  }

  predicate IsDotEntry(name: string) {
    name == "." || name == ".."
  }

  /** The paths `get_accessible_paths(base, …)` appends, in order; nothing when opendir fails. */
  function Walk(base: string, listing: Option<Listing>): seq<string>
    decreases listing, 2
  {
    match listing {
      case None => []
      case Some(l) => WalkEntries(base, l, |l.entries|)
    }
  }

  /** The paths appended for the first `k` entries of `l`. */
  function WalkEntries(base: string, l: Listing, k: nat): seq<string>
    requires k <= |l.entries|
    decreases l, 1, k
  {
    if k == 0 then []
    else WalkEntries(base, l, k - 1) + EntryPaths(base, l, k - 1)
  }

  /** The paths appended for entry `i` of `l`: a regular file itself, a directory's walk, else nothing. */
  function EntryPaths(base: string, l: Listing, i: nat): seq<string>
    requires i < |l.entries|
    decreases l, 0
  {
    var e := l.entries[i];
    if IsDotEntry(e.name) then []
    else
      match e.kind {
        case Regular => [ChildPath(base, e.name)]
        case Directory(c) => Walk(ChildPath(base, e.name), c)
        case OtherKind => []
      }
  }

  /**
   * `get_accessible_paths`: appends to `paths` from index `numPaths` on and returns
   * the new count; the entries before `numPaths` and after the new count are
   * unchanged. The array must have room, as the source assumes.
   */
  method GetAccessiblePaths(base: string, listing: Option<Listing>, paths: array<string>, numPaths: nat)
    returns (n: nat)
    requires numPaths + |Walk(base, listing)| <= paths.Length
    modifies paths
    ensures n == numPaths + |Walk(base, listing)|
    ensures paths[..n] == old(paths[..numPaths]) + Walk(base, listing)
    ensures forall j :: n <= j < paths.Length ==> paths[j] == old(paths[j])
    decreases listing, 2
  {
    n := numPaths;
    if listing.None? {
      assert old(paths[..numPaths]) + [] == old(paths[..numPaths]);
      return;
    }
    var l := listing.value;
    var i := 0;
    while i < |l.entries|
      invariant 0 <= i <= |l.entries|
      invariant n == numPaths + |WalkEntries(base, l, i)|
      invariant WalkEntriesGrow(base, l, i, |l.entries|)
      invariant paths[..n] == old(paths[..numPaths]) + WalkEntries(base, l, i)
      invariant forall j :: n <= j < paths.Length ==> paths[j] == old(paths[j])
    {
      WalkEntriesGrows(base, l, i + 1, |l.entries|);
      n := VisitEntry(base, l, i, paths, n);
      ConcatAssoc(old(paths[..numPaths]), WalkEntries(base, l, i), EntryPaths(base, l, i));
      i := i + 1;
    }
  }

  /** One pass of the `readdir` loop: entry `i` of `l`, appended at index `numPaths`. */
  method VisitEntry(base: string, l: Listing, i: nat, paths: array<string>, numPaths: nat) returns (n: nat)
    requires i < |l.entries| && numPaths + |EntryPaths(base, l, i)| <= paths.Length
    modifies paths
    ensures n == numPaths + |EntryPaths(base, l, i)|
    ensures paths[..n] == old(paths[..numPaths]) + EntryPaths(base, l, i)
    ensures forall j :: n <= j < paths.Length ==> paths[j] == old(paths[j])
    decreases l, 0
  {
    n := numPaths;
    var e := l.entries[i];
    if IsDotEntry(e.name) {
      return;
    }
    var full := ChildPath(base, e.name);
    match e.kind {
      case Regular =>
        paths[n] := full;
        n := n + 1;
        assert paths[..n] == old(paths[..numPaths]) + [full];
      case Directory(c) =>
        assert e in l.entries;
        n := GetAccessiblePaths(full, c, paths, n);
      case OtherKind =>
    }
  }

  /** Walking more entries never yields fewer paths. */
  ghost predicate WalkEntriesGrow(base: string, l: Listing, i: nat, k: nat)
    requires i <= k <= |l.entries|
  {
    |WalkEntries(base, l, i)| <= |WalkEntries(base, l, k)|
  }

  lemma {:induction false} WalkEntriesGrows(base: string, l: Listing, i: nat, k: nat)
    requires i <= k <= |l.entries|
    ensures WalkEntriesGrow(base, l, i, k)
    decreases k - i
  {
    if i < k {
      WalkEntriesGrows(base, l, i, k - 1);
    }
  }

  /** Every collected path begins with the base and fits a path field, when the base itself fits. */
  lemma {:induction false} WalkUnderBase(base: string, listing: Option<Listing>)
    requires |base| < MAX_PATH_LENGTH
    ensures forall p :: p in Walk(base, listing) ==> HasPrefix(p, base) && |p| < MAX_PATH_LENGTH
    decreases listing, 2
  {
    if listing.Some? {
      WalkEntriesUnderBase(base, listing.value, |listing.value.entries|);
    }
  }

  lemma {:induction false} WalkEntriesUnderBase(base: string, l: Listing, k: nat)
    requires |base| < MAX_PATH_LENGTH && k <= |l.entries|
    ensures forall p :: p in WalkEntries(base, l, k) ==> HasPrefix(p, base) && |p| < MAX_PATH_LENGTH
    decreases l, 1, k
  {
    if k > 0 {
      WalkEntriesUnderBase(base, l, k - 1);
      var e := l.entries[k - 1];
      if !IsDotEntry(e.name) {
        var full := ChildPath(base, e.name);
        ChildPathUnderBase(base, e.name);
        match e.kind {
          case Regular =>
          case Directory(c) =>
            assert e in l.entries;
            WalkUnderBase(full, c);
            forall p | p in Walk(full, c) ensures HasPrefix(p, base) {
              PrefixTransitive(p, full, base);
            }
          case OtherKind =>
        }
      }
    }
  }

  /** An entry's path starts with the directory's path and fits the path buffer. */
  lemma ChildPathUnderBase(base: string, name: string)
    requires |base| < MAX_PATH_LENGTH
    ensures HasPrefix(ChildPath(base, name), base) && |ChildPath(base, name)| < MAX_PATH_LENGTH
  {
    var full := ChildPath(base, name);
    assert full[..|base|] == (base + "/" + name)[..|base|];
  }

  lemma PrefixTransitive(s: string, t: string, u: string)
    requires HasPrefix(s, t) && HasPrefix(t, u)
    ensures HasPrefix(s, u)
  {
    assert s[..|u|] == s[..|t|][..|u|];
  }

  /**
   * A directory of regular files, none named `.` or `..`, yields one path per
   * entry in `readdir` order: the base joined to the entry's name.
   */
  lemma {:induction false} WalkOfFlatDirectory(base: string, l: Listing, k: nat)
    requires k <= |l.entries|
    requires forall i :: 0 <= i < |l.entries| ==> l.entries[i].kind == Regular && !IsDotEntry(l.entries[i].name)
    ensures WalkEntries(base, l, k) == seq(k, i requires 0 <= i < k => ChildPath(base, l.entries[i].name))
  {
    if k > 0 {
      WalkOfFlatDirectory(base, l, k - 1);
    }
  }

  /** The paths `main` collects from its arguments: a directory's walk, or a file's own path. */
  function CollectedPaths(args: seq<PathArg>): seq<string>
  {
    if args == [] then []
    else
      var a := args[|args| - 1];
      CollectedPaths(args[..|args| - 1]) +
        (if a.listing.Some? then Walk(a.path, a.listing) else [Take(a.path, MAX_PATH_LENGTH - 1)])
  }

  /**
   * Every collected path fits a path field, and one collected from a directory
   * argument that fits begins with that argument.
   */
  lemma {:induction false} CollectedPathsFit(args: seq<PathArg>)
    requires forall i :: 0 <= i < |args| ==> |args[i].path| < MAX_PATH_LENGTH
    ensures forall p :: p in CollectedPaths(args) ==> |p| < MAX_PATH_LENGTH
  {
    if args != [] {
      var init := args[..|args| - 1];
      var a := args[|args| - 1];
      assert forall i :: 0 <= i < |init| ==> init[i] == args[i];
      CollectedPathsFit(init);
      WalkUnderBase(a.path, a.listing);
    }
  }

  /** Lines 304-323 of `main`: the accessible paths collected into a local array of 100 entries. */
  method CollectAccessiblePaths(args: seq<PathArg>) returns (paths: seq<string>)
    requires |CollectedPaths(args)| <= MAX_ACCESSIBLE_PATHS
    ensures paths == CollectedPaths(args)
  {
    var accessiblePaths := new string[MAX_ACCESSIBLE_PATHS](_ => "");
    var numPaths: nat := 0;
    var i := 0;
    while i < |args|
      invariant 0 <= i <= |args|
      invariant numPaths == |CollectedPaths(args[..i])|
      invariant |CollectedPaths(args[..i])| <= |CollectedPaths(args)|
      invariant accessiblePaths[..numPaths] == CollectedPaths(args[..i])
    {
      assert args[..i + 1][..i] == args[..i];
      CollectedPathsGrows(args, i + 1);
      var a := args[i];
      ghost var before := accessiblePaths[..numPaths];
      if a.listing.Some? {
        numPaths := GetAccessiblePaths(a.path, a.listing, accessiblePaths, numPaths);
      } else {
        accessiblePaths[numPaths] := Take(a.path, MAX_PATH_LENGTH - 1);
        numPaths := numPaths + 1;
        assert accessiblePaths[..numPaths] == before + [Take(a.path, MAX_PATH_LENGTH - 1)];
      }
      i := i + 1;
    }
    assert args[..i] == args;
    paths := accessiblePaths[..numPaths];
  }

  lemma {:induction false} CollectedPathsGrows(args: seq<PathArg>, i: nat)
    requires i <= |args|
    ensures |CollectedPaths(args[..i])| <= |CollectedPaths(args)|
    decreases |args| - i
  {
    if i < |args| {
      CollectedPathsGrows(args, i + 1);
      var p := args[..i + 1];
      assert p[..|p| - 1] == args[..i];
      assert |CollectedPaths(args[..i])| <= |CollectedPaths(p)|;
    } else {
      assert args[..i] == args;
    }
  }

  /** The header `sprintf(reg_msg, "%s %d %d %d %d", …)` puts before the paths. */
  function RegistrationHeaderText(ip: string, nmPort: int, ssPort: int, clientPort: int, numPaths: int): string
  {
    ip + " " + IntToString(nmPort) + " " + IntToString(ssPort) + " " + IntToString(clientPort) + " " + IntToString(numPaths)
  }

  /** The whole registration message: the header, then `" " + path` for each path. */
  function RegistrationMessage(ip: string, nmPort: int, ssPort: int, clientPort: int, paths: seq<string>): string
  {
    RegistrationHeaderText(ip, nmPort, ssPort, clientPort, |paths|) + SpacePrefixed(paths)
  }

  /** Lines 330-336 of `main`: the sprintf header and the strcat loop over the collected paths. */
  method BuildRegistrationMessage(ip: string, nmPort: int, ssPort: int, clientPort: int, paths: seq<string>)
    returns (msg: string)
    ensures msg == RegistrationMessage(ip, nmPort, ssPort, clientPort, paths)
    ensures HasPrefix(msg, RegistrationHeaderText(ip, nmPort, ssPort, clientPort, |paths|))
  {
    var header := RegistrationHeaderText(ip, nmPort, ssPort, clientPort, |paths|);
    msg := AppendPaths(header, paths);
  }

  /** The strcat loop: `" "` and then each path, appended to `text` in order. */
  method AppendPaths(text: string, paths: seq<string>) returns (msg: string)
    ensures msg == text + SpacePrefixed(paths)
    ensures HasPrefix(msg, text)
  {
    msg := text;
    var i := 0;
    while i < |paths|
      invariant 0 <= i <= |paths|
      invariant msg == text + SpacePrefixed(paths[..i])
    {
      ghost var sofar := SpacePrefixed(paths[..i]);
      assert SpacePrefixed(paths[..i + 1]) == sofar + " " + paths[i] by {
        assert paths[..i + 1][..i] == paths[..i];
      }
      msg := msg + " ";
      msg := msg + paths[i];
      assert msg == text + (sofar + " " + paths[i]);
      i := i + 1;
    }
    assert paths[..i] == paths;
    assert msg[..|text|] == text;
  }

  // ---------------------------------------------------------------------------
  // Data-client commands
  // ---------------------------------------------------------------------------

  /** What `handle_client` does with one message. */
  datatype DataAction = ReadFile(path: string) | DeleteFile(path: string) | WriteFile | Ignored

  /** `handle_read` and `handle_write` close the client socket on every path through them. */
  predicate ClosesSession(a: DataAction) {
    a.ReadFile? || a.WriteFile?
  }

  /**
   * `sscanf(buffer, "%s %s", command, path)` and the strcmp chain. A missing
   * command or path leaves the local uninitialised in the source; the model
   * takes it as empty, so a message without a command is ignored.
   */
  function DataCommand(message: string): DataAction
  {
    var words := Words(message);
    var command := if |words| >= 1 then words[0] else "";
    var path := if |words| >= 2 then words[1] else "";
    if command == "READ" then ReadFile(path)
    else if command == "DELETE" then DeleteFile(path)
    else if command == "WRITE" then WriteFile
    else Ignored
  }

  /** A command and a path, as a client writes them, are dispatched on that command with that path. */
  lemma DataCommandOfRequest(command: string, path: string)
    requires IsWord(command) && IsWord(path)
    ensures DataCommand(command + " " + path) ==
      if command == "READ" then ReadFile(path)
      else if command == "DELETE" then DeleteFile(path)
      else if command == "WRITE" then WriteFile
      else Ignored
  {
    WordsOfJoin([command, path]);
    assert Join([command, path], ' ') == command + " " + path by {
      assert [command, path][1..] == [path];
    }
  }

  /** The dispatch of each message of a connection, had the socket stayed open. */
  function Dispatched(messages: seq<string>): (acts: seq<DataAction>)
    ensures |acts| == |messages|
    ensures forall i :: 0 <= i < |messages| ==> acts[i] == DataCommand(messages[i])
  {
    seq(|messages|, i requires 0 <= i < |messages| => DataCommand(messages[i]))
  }

  /** The actions before and including the first one that closes the socket. */
  function UntilClosed(acts: seq<DataAction>): seq<DataAction>
  {
    if acts == [] then []
    else if ClosesSession(acts[0]) then [acts[0]]
    else [acts[0]] + UntilClosed(acts[1..])
  }

  /**
   * The actions of one connection: one per message, up to and including the
   * first read or write, after which the socket is closed and the next `recv`
   * fails; otherwise until `recv` fails at the end of `messages`.
   */
  function SessionActions(messages: seq<string>): seq<DataAction>
  {
    UntilClosed(Dispatched(messages))
  }

  /**
   * The cut keeps a prefix of the actions; only its last action can close the
   * socket, and it is shorter than the actions only when that last one did.
   */
  lemma {:induction false} UntilClosedShape(acts: seq<DataAction>)
    ensures var cut := UntilClosed(acts);
      && |cut| <= |acts| && cut == acts[..|cut|]
      && (forall i :: 0 <= i < |cut| - 1 ==> !ClosesSession(cut[i]))
      && (|cut| < |acts| ==> cut != [] && ClosesSession(cut[|cut| - 1]))
  {
    if acts != [] && !ClosesSession(acts[0]) {
      var rest := acts[1..];
      UntilClosedShape(rest);
      var cut := UntilClosed(acts);
      var tail := UntilClosed(rest);
      assert cut == [acts[0]] + tail;
      ConsPrefix(acts, tail);
      forall i | 0 <= i < |cut| - 1 ensures !ClosesSession(cut[i]) {
        if i > 0 {
          assert cut[i] == tail[i - 1];
        }
      }
    }
  }

  /**
   * A session answers a prefix of its messages in order, one dispatched action
   * each; only its last action can close the socket, and it stops before the
   * end of the messages only when that last action did.
   */
  lemma SessionActionsShape(messages: seq<string>)
    ensures var acts := SessionActions(messages);
      && |acts| <= |messages|
      && acts == Dispatched(messages)[..|acts|]
      && (forall i :: 0 <= i < |acts| - 1 ==> !ClosesSession(acts[i]))
      && (|acts| < |messages| ==> acts != [] && ClosesSession(acts[|acts| - 1]))
  {
    UntilClosedShape(Dispatched(messages));
  }

  /** `handle_client`: the receive loop over the messages of one connection. */
  method HandleClient(messages: seq<string>) returns (acts: seq<DataAction>)
    ensures acts == SessionActions(messages)
  {
    acts := [];
    var i := 0;
    while i < |messages|
      invariant 0 <= i <= |messages|
      invariant acts + SessionActions(messages[i..]) == SessionActions(messages)
    {
      var a := DataCommand(messages[i]);
      SessionActionsStep(messages[i..]);
      assert messages[i..][0] == messages[i] && messages[i..][1..] == messages[i + 1..];
      ghost var sofar := acts;
      acts := acts + [a];
      if ClosesSession(a) {
        return;
      }
      ConcatAssoc(sofar, [a], SessionActions(messages[i + 1..]));
      i := i + 1;
    }
    assert messages[i..] == [];
  }

  /** One pass of the receive loop: the first message's action, then the rest unless it closed the socket. */
  lemma SessionActionsStep(messages: seq<string>)
    requires messages != []
    ensures var a := DataCommand(messages[0]);
      SessionActions(messages) == if ClosesSession(a) then [a] else [a] + SessionActions(messages[1..])
  {
    assert Dispatched(messages)[1..] == Dispatched(messages[1..]);
  }
}
