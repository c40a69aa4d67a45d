/**
 * The naming server of NFS/namingServer.c: the string hash, the chained path
 * index, the fixed-capacity registry of storage servers, the registration and
 * lookup handlers, and the identity dispatch of a new connection. Each handler
 * call is one atomic step (the mutexes are not modelled) and each `recv` yields
 * one whole message sent by the peer, or `None` when it returns <= 0.
 */
module NamingServer {
  import opened Wrappers
  import opened CText
  import opened NamingTypes

  const UINT_MODULUS: nat := 0x1_0000_0000

  const INVALID_FORMAT := "Invalid registration format"
  const REGISTRATION_SUCCESSFUL := "Registration successful"
  const MAX_SERVERS_REACHED := "Maximum number of storage servers reached"
  const NO_SERVER_FOUND := "No server found for the requested path"

  // ---------------------------------------------------------------------------
  // Hash function
  // ---------------------------------------------------------------------------

  /**
   * A character of the key as `hash * 31 + *key` adds it: the byte is a signed
   * `char` (as on x86 Linux), and its value is converted to `unsigned int`.
   */
  function CharAsUnsigned(c: char): (u: nat)
    ensures u < UINT_MODULUS
    ensures (c as int) < 128 ==> u == c as int
  {
    var b := (c as int) % 256;
    if b < 128 then b else b + UINT_MODULUS - 256
  }

  /** The `unsigned int` accumulator of `hash` after the whole key. */
  function HashAccumulator(key: string): (h: nat)
    ensures h < UINT_MODULUS
  {
    if key == [] then 0
    else (HashAccumulator(key[..|key| - 1]) * 31 + CharAsUnsigned(key[|key| - 1])) % UINT_MODULUS
  }

  /** The bucket a key belongs to. */
  function HashOf(key: string): (index: nat)
    ensures index < HASH_TABLE_SIZE
  {
    HashAccumulator(key) % HASH_TABLE_SIZE
  }

  /** `hash`: the loop over the key's characters, then `% HASH_TABLE_SIZE`. */
  method Hash(key: string) returns (index: nat)
    ensures index == HashOf(key) && index < HASH_TABLE_SIZE
  {
    var h: nat := 0;
    var i := 0;
    while i < |key|
      invariant 0 <= i <= |key|
      invariant h == HashAccumulator(key[..i])
    {
      assert key[..i + 1][..i] == key[..i];
      h := (h * 31 + CharAsUnsigned(key[i])) % UINT_MODULUS;
      i := i + 1;
    }
    assert key[..|key|] == key;
    index := h % HASH_TABLE_SIZE;
  }

  /** The same fold over the key's character codes in unbounded integers, with no wrap-around. */
  function PlainFold(key: string): int
  {
    if key == [] then 0 else PlainFold(key[..|key| - 1]) * 31 + key[|key| - 1] as int
  }

  predicate IsAscii(key: string) {
    forall i :: 0 <= i < |key| ==> (key[i] as int) < 128
  }

  /** Adding whole multiples of 2^32 does not change the value modulo 2^32. */
  lemma ModOfMultipleAdded(x: int, k: int)
    ensures (x + k * UINT_MODULUS) % UINT_MODULUS == x % UINT_MODULUS
  {
    var r := x % UINT_MODULUS;
    var q := x / UINT_MODULUS;
    assert x == q * UINT_MODULUS + r;
    assert x + k * UINT_MODULUS == (q + k) * UINT_MODULUS + r;
  }

  /**
   * On 7-bit keys, wrapping the accumulator at every step gives what the
   * unbounded fold `h*31 + c` gives reduced once modulo 2^32.
   */
  lemma {:induction false} HashOfAscii(key: string)
    requires IsAscii(key)
    ensures HashAccumulator(key) == PlainFold(key) % UINT_MODULUS
    ensures HashOf(key) == (PlainFold(key) % UINT_MODULUS) % HASH_TABLE_SIZE
  {
    if key != [] {
      var init := key[..|key| - 1];
      assert IsAscii(init) by {
        forall i | 0 <= i < |init| ensures (init[i] as int) < 128 {
          assert init[i] == key[i];
        }
      }
      HashOfAscii(init);
      var c := key[|key| - 1] as int;
      var p := PlainFold(init);
      var q := p / UINT_MODULUS;
      var r := p % UINT_MODULUS;
      assert p == q * UINT_MODULUS + r;
      assert p * 31 + c == (r * 31 + c) + (q * 31) * UINT_MODULUS;
      ModOfMultipleAdded(r * 31 + c, q * 31);
    }
  }

  // ---------------------------------------------------------------------------
  // The path index as a value: HASH_TABLE_SIZE chains, head first
  // ---------------------------------------------------------------------------

  function EmptyBuckets(): (b: seq<seq<HashNode>>)
    ensures |b| == HASH_TABLE_SIZE
    ensures forall i :: 0 <= i < |b| ==> b[i] == []
  {
    seq(HASH_TABLE_SIZE, _ => [])
  }

  /** The server of the first node of `chain` whose key equals `path`. */
  function FirstMatch(chain: seq<HashNode>, path: string): (r: Option<nat>)
    ensures r.None? <==> forall k :: 0 <= k < |chain| ==> chain[k].path != path
    ensures r.Some? ==> exists k :: 0 <= k < |chain| && chain[k] == HashNode(path, r.value)
                                    && forall j :: 0 <= j < k ==> chain[j].path != path
  {
    if chain == [] then None
    else if chain[0].path == path then Some(chain[0].server)
    else
      var r := FirstMatch(chain[1..], path);
      assert forall k :: 1 <= k < |chain| ==> chain[k] == chain[1..][k - 1];
      r
  }

  /** `hash_map_find` on the index as a value. */
  function Lookup(b: seq<seq<HashNode>>, path: string): Option<nat>
    requires |b| == HASH_TABLE_SIZE
  {
    FirstMatch(b[HashOf(path)], path)
  }

  /** `hash_map_insert` on the index as a value: the new node heads its bucket's chain. */
  function InsertNode(b: seq<seq<HashNode>>, path: string, server: nat): (r: seq<seq<HashNode>>)
    requires |b| == HASH_TABLE_SIZE
    ensures |r| == HASH_TABLE_SIZE
  {
    b[HashOf(path) := [HashNode(path, server)] + b[HashOf(path)]]
  }

  /** The registration loop's successive inserts of `paths`, all referring to `server`. */
  function InsertAll(b: seq<seq<HashNode>>, paths: seq<string>, server: nat): (r: seq<seq<HashNode>>)
    requires |b| == HASH_TABLE_SIZE
    ensures |r| == HASH_TABLE_SIZE
  {
    if paths == [] then b
    else InsertNode(InsertAll(b, paths[..|paths| - 1], server), paths[|paths| - 1], server)
  }

  /** The number of nodes in all chains. */
  function NodeCount(b: seq<seq<HashNode>>): nat
  {
    if b == [] then 0 else NodeCount(b[..|b| - 1]) + |b[|b| - 1]|
  }

  /** Every node sits in the bucket its key hashes to, and its key fits the node's path field. */
  ghost predicate ChainsHashed(b: seq<seq<HashNode>>) {
    forall i, k :: 0 <= i < |b| && 0 <= k < |b[i]| ==> HashOf(b[i][k].path) == i && FitsPathField(b[i][k].path)
  }

  /** Every node refers to a slot below `n`. */
  ghost predicate RefersBelow(b: seq<seq<HashNode>>, n: nat) {
    forall i, k :: 0 <= i < |b| && 0 <= k < |b[i]| ==> b[i][k].server < n
  }

  /** After `insert(p, s)`, `find(p)` is `s` and `find(q)` is unchanged for every other `q`. */
  lemma LookupAfterInsert(b: seq<seq<HashNode>>, p: string, s: nat, q: string)
    requires |b| == HASH_TABLE_SIZE
    ensures Lookup(InsertNode(b, p, s), q) == if q == p then Some(s) else Lookup(b, q)
  {
    var b' := InsertNode(b, p, s);
    if HashOf(q) == HashOf(p) {
      assert b'[HashOf(q)] == [HashNode(p, s)] + b[HashOf(q)];
      assert b'[HashOf(q)][1..] == b[HashOf(q)];
    }
  }

  lemma {:induction false} NodeCountUpdate(b: seq<seq<HashNode>>, i: nat, c: seq<HashNode>)
    requires i < |b|
    ensures NodeCount(b[i := c]) == NodeCount(b) - |b[i]| + |c|
  {
    var n := |b|;
    var b' := b[i := c];
    assert b'[..n - 1] == if i == n - 1 then b[..n - 1] else b[..n - 1][i := c];
    if i < n - 1 {
      NodeCountUpdate(b[..n - 1], i, c);
    }
  }

  /**
   * `insert(p, s)` adds exactly one node, at the head of bucket `hash(p)`: the
   * older nodes of that chain, duplicates of `p` included, follow it unchanged,
   * and every other bucket is unchanged.
   */
  lemma InsertFrame(b: seq<seq<HashNode>>, p: string, s: nat)
    requires |b| == HASH_TABLE_SIZE
    ensures var b' := InsertNode(b, p, s);
      && b'[HashOf(p)][0] == HashNode(p, s)
      && b'[HashOf(p)][1..] == b[HashOf(p)]
      && (forall i :: 0 <= i < HASH_TABLE_SIZE && i != HashOf(p) ==> b'[i] == b[i])
      && NodeCount(b') == NodeCount(b) + 1
  {
    NodeCountUpdate(b, HashOf(p), [HashNode(p, s)] + b[HashOf(p)]);
  }

  /** After the registration loop, each inserted path finds `s`; every other path finds what it found before. */
  lemma {:induction false} LookupAfterInsertAll(b: seq<seq<HashNode>>, ps: seq<string>, s: nat, q: string)
    requires |b| == HASH_TABLE_SIZE
    ensures Lookup(InsertAll(b, ps, s), q) == if q in ps then Some(s) else Lookup(b, q)
  {
    if ps != [] {
      var init := ps[..|ps| - 1];
      LookupAfterInsertAll(b, init, s, q);
      LookupAfterInsert(InsertAll(b, init, s), ps[|ps| - 1], s, q);
      assert ps == init + [ps[|ps| - 1]];
      assert q in ps <==> q in init || q == ps[|ps| - 1];
    }
  }

  lemma {:induction false} InsertAllNodeCount(b: seq<seq<HashNode>>, ps: seq<string>, s: nat)
    requires |b| == HASH_TABLE_SIZE
    ensures NodeCount(InsertAll(b, ps, s)) == NodeCount(b) + |ps|
  {
    if ps != [] {
      InsertAllNodeCount(b, ps[..|ps| - 1], s);
      InsertFrame(InsertAll(b, ps[..|ps| - 1], s), ps[|ps| - 1], s);
    }
  }

  /** A node whose key fits the field keeps every node in the bucket its key hashes to. */
  lemma InsertKeepsHashed(b: seq<seq<HashNode>>, p: string, s: nat)
    requires |b| == HASH_TABLE_SIZE && ChainsHashed(b) && FitsPathField(p)
    ensures ChainsHashed(InsertNode(b, p, s))
  {
    var b': seq<seq<HashNode>> := InsertNode(b, p, s);
    forall i, k | 0 <= i < |b'| && 0 <= k < |b'[i]|
      ensures HashOf(b'[i][k].path) == i && FitsPathField(b'[i][k].path)
    {
      if i == HashOf(p) && k > 0 {
        assert b'[i][k] == b[i][k - 1];
      }
    }
  }

  /** Inserts referring to a slot below `n` keep every node referring below `n`. */
  lemma {:induction false} InsertAllRefersBelow(b: seq<seq<HashNode>>, ps: seq<string>, s: nat, n: nat)
    requires |b| == HASH_TABLE_SIZE && RefersBelow(b, n) && s < n
    ensures RefersBelow(InsertAll(b, ps, s), n)
  {
    if ps != [] {
      var p := ps[|ps| - 1];
      var a := InsertAll(b, ps[..|ps| - 1], s);
      InsertAllRefersBelow(b, ps[..|ps| - 1], s, n);
      var b': seq<seq<HashNode>> := InsertNode(a, p, s);
      forall i, k | 0 <= i < |b'| && 0 <= k < |b'[i]| ensures b'[i][k].server < n {
        if i == HashOf(p) && k > 0 {
          assert b'[i][k] == a[i][k - 1];
        }
      }
    }
  }

  /** A lookup in an index whose nodes refer below `n` yields a slot below `n`. */
  lemma LookupBelow(b: seq<seq<HashNode>>, n: nat, path: string)
    requires |b| == HASH_TABLE_SIZE && RefersBelow(b, n)
    ensures Lookup(b, path).Some? ==> Lookup(b, path).value < n
  {
  }

  // ---------------------------------------------------------------------------
  // HashMap: the chained table, updated in place
  // ---------------------------------------------------------------------------

  class HashMap {
    const table: array<seq<HashNode>>

    ghost predicate Valid()
      reads this, table
    {
      table.Length == HASH_TABLE_SIZE && ChainsHashed(table[..])
    }

    /** The chains head first, bucket by bucket. */
    function Buckets(): (b: seq<seq<HashNode>>)
      reads this, table
      ensures |b| == table.Length
    {
      table[..]
    }

    /** `initialize_hash_map`: every bucket is an empty chain. */
    constructor ()
      ensures Valid() && fresh(table)
      ensures Buckets() == EmptyBuckets() && NodeCount(Buckets()) == 0
    {
      table := new seq<HashNode>[HASH_TABLE_SIZE](_ => []);
      new;
      assert table[..] == EmptyBuckets();
      EmptyBucketsCount(HASH_TABLE_SIZE);
    }

    /** `hash_map_insert`: prepends a node for `path` to its bucket's chain. */
    method Insert(path: string, server: nat)
      requires Valid() && FitsPathField(path)
      modifies table
      ensures Valid()
      ensures Buckets() == InsertNode(old(Buckets()), path, server)
    {
      var index := Hash(path);
      table[index] := [HashNode(path, server)] + table[index];
      InsertKeepsHashed(old(table[..]), path, server);
    }

    /** `hash_map_find`: walks the chain of bucket `hash(path)` to the first node with that key. */
    method Find(path: string) returns (server: Option<nat>)
      requires Valid()
      ensures server == Lookup(Buckets(), path)
    {
      var index := Hash(path);
      var current := table[index];
      while current != []
        invariant FirstMatch(current, path) == FirstMatch(table[index], path)
      {
        if current[0].path == path {
          return Some(current[0].server);
        }
        current := current[1..];
      }
      return None;
    }
  }

  lemma {:induction false} EmptyBucketsCount(n: nat)
    ensures NodeCount(seq(n, _ => [])) == 0
  {
    if n > 0 {
      var b: seq<seq<HashNode>> := seq(n, _ => []);
      assert b[..n - 1] == seq(n - 1, _ => []);
      EmptyBucketsCount(n - 1);
    }
  }
  /** The index `initialize_hash_map` leaves finds nothing, holds no nodes, and keeps both index invariants. */
  lemma EmptyIndexMisses(path: string)
    ensures Lookup(EmptyBuckets(), path) == None
    ensures NodeCount(EmptyBuckets()) == 0
    ensures ChainsHashed(EmptyBuckets()) && RefersBelow(EmptyBuckets(), 0)
  {
    EmptyBucketsCount(HASH_TABLE_SIZE);
    assert EmptyBuckets() == seq(HASH_TABLE_SIZE, _ => []);
  }


  // ---------------------------------------------------------------------------
  // Registration message: the handler's parse
  // ---------------------------------------------------------------------------

  /** The five header fields and the text of the remaining paths. */
  datatype RegistrationHeader = RegistrationHeader(
    ipAddress: string,
    nmPort: int,
    serverPort: int,
    clientPort: int,
    declaredPaths: int,
    pathsText: string)

  /**
   * `sscanf(buffer, "%s %d %d %d %d %[^\n]", ...)` when it converts at least five
   * fields, and `None` otherwise. When the sixth conversion fails `paths_str` is
   * left uninitialised in the source; the model takes it as empty.
   */
  function ParseRegistration(buffer: string): Option<RegistrationHeader>
  {
    match ScanWord(buffer) {
      case None => None
      case Some((ip, r1)) =>
        match ScanInt(r1) {
          case None => None
          case Some((nmPort, r2)) =>
            match ScanInt(r2) {
              case None => None
              case Some((serverPort, r3)) =>
                match ScanInt(r3) {
                  case None => None
                  case Some((clientPort, r4)) =>
                    match ScanInt(r4) {
                      case None => None
                      case Some((declared, r5)) =>
                        var text := match ScanLine(SkipSpaces(r5)) {
                          case None => ""
                          case Some((line, _)) => line
                        };
                        Some(RegistrationHeader(ip, nmPort, serverPort, clientPort, declared, text))
                    }
                }
            }
        }
    }
  }

  /**
   * The paths the handler stores: the space-separated tokens of the text, in order,
   * at most MAX_PATHS_PER_SERVER of them, each cut to MAX_PATH_LENGTH - 1 characters.
   */
  function RegisteredPaths(pathsText: string): seq<string>
  {
    TruncateAll(Take(Tokens(pathsText, ' '), MAX_PATHS_PER_SERVER), MAX_PATH_LENGTH - 1)
  }

  /** The record the handler builds from a parsed header; the declared path count plays no part. */
  function NewRecord(h: RegistrationHeader, socket: int): StorageServer
  {
    StorageServer(h.ipAddress, h.nmPort, h.clientPort, h.serverPort, RegisteredPaths(h.pathsText), socket, 1)
  }

  /** The strtok loop filling `new_ss.accessible_paths`. */
  method CollectPaths(pathsText: string) returns (paths: seq<string>)
    ensures paths == RegisteredPaths(pathsText)
    ensures |paths| <= MAX_PATHS_PER_SERVER
    ensures forall i :: 0 <= i < |paths| ==> FitsPathField(paths[i])
  {
    var tokens := Tokens(pathsText, ' ');
    paths := [];
    var i := 0;
    while i < |tokens| && |paths| < MAX_PATHS_PER_SERVER
      invariant 0 <= i <= |tokens| && i <= MAX_PATHS_PER_SERVER && |paths| == i
      invariant paths == TruncateAll(tokens[..i], MAX_PATH_LENGTH - 1)
    {
      paths := paths + [Take(tokens[i], MAX_PATH_LENGTH - 1)];
      i := i + 1;
    }
    assert tokens[..i] == Take(tokens, MAX_PATHS_PER_SERVER);
  }

  /** The reply to a hit: `sprintf(response, "%s %d", ip_address, client_port)`. */
  function AddressReply(s: StorageServer): string
  {
    s.ipAddress + " " + IntToString(s.clientPort)
  }

  /**
   * The reply to one client message: `sscanf(buffer, "%s %s", command, path)`;
   * a `GET_SERVER` command is answered, anything else is not. A missing path
   * leaves `path` uninitialised in the source; the model takes it as empty.
   */
  function ClientReply(index: seq<seq<HashNode>>, registry: seq<StorageServer>, message: string): Option<string>
    requires |index| == HASH_TABLE_SIZE && RefersBelow(index, |registry|)
  {
    var words := Words(message);
    if |words| == 0 || words[0] != "GET_SERVER" then None
    else
      var path := if |words| >= 2 then words[1] else "";
      Some(PathReply(index, registry, path))
  }

  /** The reply to a `GET_SERVER` request for `path`: the address of the indexed server, or the miss text. */
  function PathReply(index: seq<seq<HashNode>>, registry: seq<StorageServer>, path: string): string
    requires |index| == HASH_TABLE_SIZE && RefersBelow(index, |registry|)
  {
    LookupBelow(index, |registry|, path);
    match Lookup(index, path) {
      case Some(slot) => AddressReply(registry[slot])
      case None => NO_SERVER_FOUND
    }
  }

  /** The replies sent over one client connection, in order. */
  function ClientReplies(index: seq<seq<HashNode>>, registry: seq<StorageServer>, messages: seq<string>): seq<string>
    requires |index| == HASH_TABLE_SIZE && RefersBelow(index, |registry|)
  {
    if messages == [] then []
    else
      var earlier := ClientReplies(index, registry, messages[..|messages| - 1]);
      match ClientReply(index, registry, messages[|messages| - 1]) {
        case Some(r) => earlier + [r]
        case None => earlier
      }
  }

  /** The replies to the first `i + 1` messages extend those to the first `i`. */
  lemma ClientRepliesPrefix(index: seq<seq<HashNode>>, registry: seq<StorageServer>, ms: seq<string>, i: nat)
    requires |index| == HASH_TABLE_SIZE && RefersBelow(index, |registry|) && i < |ms|
    ensures ClientReplies(index, registry, ms[..i + 1]) ==
            ClientReplies(index, registry, ms[..i]) + (match ClientReply(index, registry, ms[i]) {
                                                         case Some(r) => [r]
                                                         case None => []
                                                       })
  {
    assert ms[..i + 1][..i] == ms[..i];
  }

  // ---------------------------------------------------------------------------
  // The identity frame
  // ---------------------------------------------------------------------------

  datatype Route = Registration | ClientSession | NoAction

  /** `connection_handler`: the first message, compared with strcmp; `None` when recv fails. */
  function Identify(first: Option<string>): (r: Route)
    ensures r == Registration <==> first == Some("STORAGE_SERVER")
    ensures r == ClientSession <==> first == Some("CLIENT")
  {
    match first {
      case None => NoAction
      case Some(m) => if m == "STORAGE_SERVER" then Registration else if m == "CLIENT" then ClientSession else NoAction
    }
  }

  /** The registration message a registration connection's second `recv` yields. */
  function SecondMessage(rest: seq<string>): Option<string>
  {
    if rest == [] then None else Some(rest[0])
  }

  /**
   * The reply `handle_storage_server_registration` sends: none when its recv
   * fails, the format error when fewer than five fields parse, and otherwise the
   * acknowledgement while the registry has room and the capacity error when not.
   */
  function RegistrationReply(received: Option<string>, count: nat): (reply: Option<string>)
    ensures reply.None? <==> received.None?
    ensures reply == Some(INVALID_FORMAT) <==> received.Some? && ParseRegistration(received.value).None?
    ensures reply == Some(REGISTRATION_SUCCESSFUL) <==>
      received.Some? && ParseRegistration(received.value).Some? && count < MAX_STORAGE_SERVERS
    ensures reply == Some(MAX_SERVERS_REACHED) <==>
      received.Some? && ParseRegistration(received.value).Some? && count >= MAX_STORAGE_SERVERS
  {
    match received {
      case None => None
      case Some(text) =>
        if ParseRegistration(text).None? then Some(INVALID_FORMAT)
        else if count < MAX_STORAGE_SERVERS then Some(REGISTRATION_SUCCESSFUL)
        else Some(MAX_SERVERS_REACHED)
    }
  }

  /**
   * The registry count, slots and index after one registration, from those
   * before it: a successful one writes the record to slot `count`, adds one to
   * the count and inserts each stored path naming that slot; any other outcome
   * changes nothing.
   */
  ghost predicate RegistrationStep(received: Option<string>, socket: int,
                                   count: nat, slots: seq<StorageServer>, index: seq<seq<HashNode>>,
                                   count': nat, slots': seq<StorageServer>, index': seq<seq<HashNode>>)
  {
    if RegistrationReply(received, count) == Some(REGISTRATION_SUCCESSFUL) then
      var record := NewRecord(ParseRegistration(received.value).value, socket);
      && count < |slots| && |index| == HASH_TABLE_SIZE
      && count' == count + 1
      && slots' == slots[count := record]
      && index' == InsertAll(index, record.accessiblePaths, count)
    else
      count' == count && slots' == slots && index' == index
  }

  // ---------------------------------------------------------------------------
  // NamingServer: the registry and the index, updated in place
  // ---------------------------------------------------------------------------

  class NamingServer {
    const storageServers: array<StorageServer>
    var numStorageServers: nat
    const pathToServerMap: HashMap

    ghost predicate Valid()
      reads this, storageServers, pathToServerMap, pathToServerMap.table
    {
      && storageServers.Length == MAX_STORAGE_SERVERS
      && numStorageServers <= MAX_STORAGE_SERVERS
      && pathToServerMap.Valid()
      && RefersBelow(pathToServerMap.table[..], numStorageServers)
      && (forall i :: 0 <= i < numStorageServers ==> WellFormedServer(storageServers[i]))
      && (forall i :: numStorageServers <= i < MAX_STORAGE_SERVERS ==> storageServers[i] == EmptySlot)
    }

    /** The slots written so far, in registration order. */
    function Registry(): (r: seq<StorageServer>)
      reads this, storageServers
      requires numStorageServers <= storageServers.Length
      ensures |r| == numStorageServers
    {
      storageServers[..numStorageServers]
    }

    function PathIndex(): (b: seq<seq<HashNode>>)
      reads this, pathToServerMap, pathToServerMap.table
    {
      pathToServerMap.Buckets()
    }

    /** The zero-initialised global `naming_server` with `num_storage_servers = 0`. */
    constructor ()
      ensures Valid() && fresh(storageServers) && fresh(pathToServerMap) && fresh(pathToServerMap.table)
      ensures numStorageServers == 0 && Registry() == [] && PathIndex() == EmptyBuckets()
    {
      storageServers := new StorageServer[MAX_STORAGE_SERVERS](_ => EmptySlot);
      numStorageServers := 0;
      pathToServerMap := new HashMap();
    }

    /**
     * `handle_storage_server_registration` given what its `recv` yielded. A failed
     * recv, a header with fewer than five fields or a full registry leaves the
     * registry and the index as they were; otherwise the record goes to slot
     * `num_storage_servers`, the count grows by one and every stored path is
     * inserted referring to that slot.
     */
    method HandleStorageServerRegistration(received: Option<string>, socket: int) returns (reply: Option<string>)
      requires Valid()
      modifies this, storageServers, pathToServerMap.table
      ensures Valid()
      ensures reply == RegistrationReply(received, old(numStorageServers))
      ensures RegistrationStep(received, socket, old(numStorageServers), old(storageServers[..]), old(PathIndex()),
                               numStorageServers, storageServers[..], PathIndex())
      ensures reply == Some(REGISTRATION_SUCCESSFUL) ==>
        var record := NewRecord(ParseRegistration(received.value).value, socket);
        && (forall p :: p in record.accessiblePaths ==> Lookup(PathIndex(), p) == Some(old(numStorageServers)))
        && (forall q :: q !in record.accessiblePaths ==> Lookup(PathIndex(), q) == Lookup(old(PathIndex()), q))
    {
      if received.None? {
        return None;
      }
      var header := ParseRegistration(received.value);
      if header.None? {
        return Some(INVALID_FORMAT);
      }
      var h := header.value;
      var paths := CollectPaths(h.pathsText);
      var record := StorageServer(h.ipAddress, h.nmPort, h.clientPort, h.serverPort, paths, socket, 1);
      if numStorageServers < MAX_STORAGE_SERVERS {
        assert record == NewRecord(h, socket);
        AddServer(record);
        reply := Some(REGISTRATION_SUCCESSFUL);
      } else {
        reply := Some(MAX_SERVERS_REACHED);
      }
    }

    /**
     * The handler's critical section when the registry has room: the record goes
     * to slot `num_storage_servers`, the count grows by one, and its paths are
     * inserted in order, each referring to that slot.
     */
    method AddServer(record: StorageServer)
      requires Valid() && WellFormedServer(record) && numStorageServers < MAX_STORAGE_SERVERS
      modifies this, storageServers, pathToServerMap.table
      ensures Valid()
      ensures numStorageServers == old(numStorageServers) + 1
      ensures storageServers[..] == old(storageServers[..])[old(numStorageServers) := record]
      ensures PathIndex() == InsertAll(old(PathIndex()), record.accessiblePaths, old(numStorageServers))
      ensures forall q :: Lookup(PathIndex(), q) ==
                          (if q in record.accessiblePaths then Some(old(numStorageServers)) else Lookup(old(PathIndex()), q))
    {
      var slot := numStorageServers;
      storageServers[slot] := record;
      numStorageServers := numStorageServers + 1;
      ghost var registry := storageServers[..];
      InsertPaths(record.accessiblePaths, slot);
      assert storageServers[..] == registry;
      InsertAllRefersBelow(old(PathIndex()), record.accessiblePaths, slot, numStorageServers);
      forall q
        ensures Lookup(PathIndex(), q) == if q in record.accessiblePaths then Some(slot) else Lookup(old(PathIndex()), q)
      {
        LookupAfterInsertAll(old(PathIndex()), record.accessiblePaths, slot, q);
      }
    }

    /** The handler's loop inserting each stored path, in order, with the new slot. */
    method InsertPaths(paths: seq<string>, slot: nat)
      requires pathToServerMap.Valid()
      requires forall i :: 0 <= i < |paths| ==> FitsPathField(paths[i])
      modifies pathToServerMap.table
      ensures pathToServerMap.Valid()
      ensures PathIndex() == InsertAll(old(PathIndex()), paths, slot)
    {
      var i := 0;
      while i < |paths|
        invariant 0 <= i <= |paths|
        invariant pathToServerMap.Valid()
        invariant PathIndex() == InsertAll(old(PathIndex()), paths[..i], slot)
      {
        pathToServerMap.Insert(paths[i], slot);
        assert paths[..i + 1][..i] == paths[..i];
        i := i + 1;
      }
      assert paths[..i] == paths;
    }

    /** One pass of the request loop: the reply to `message`, if any. */
    method AnswerRequest(message: string) returns (reply: Option<string>)
      requires Valid()
      ensures reply == ClientReply(PathIndex(), Registry(), message)
    {
      var words := Words(message);
      if |words| == 0 || words[0] != "GET_SERVER" {
        return None;
      }
      var path := if |words| >= 2 then words[1] else "";
      var text := ReplyForPath(path);
      reply := Some(text);
    }

    /** The lookup in the index and the reply `handle_client_request` formats for it. */
    method ReplyForPath(path: string) returns (reply: string)
      requires Valid()
      ensures reply == PathReply(PathIndex(), Registry(), path)
    {
      var server := pathToServerMap.Find(path);
      LookupBelow(PathIndex(), numStorageServers, path);
      if server.Some? {
        reply := AddressReply(storageServers[server.value]);
      } else {
        reply := NO_SERVER_FOUND;
      }
    }

    /**
     * `handle_client_request`: answers each message of the connection in turn
     * until its `recv` returns <= 0 (the end of `messages`). The registry and the
     * index are only read.
     */
    method HandleClientRequest(messages: seq<string>) returns (replies: seq<string>)
      requires Valid()
      ensures replies == ClientReplies(PathIndex(), Registry(), messages)
    {
      ghost var index, registry := PathIndex(), Registry();
      replies := [];
      var i := 0;
      while i < |messages|
        invariant 0 <= i <= |messages|
        invariant index == PathIndex() && registry == Registry()
        invariant replies == ClientReplies(index, registry, messages[..i])
      {
        var reply := AnswerRequest(messages[i]);
        ClientRepliesPrefix(index, registry, messages, i);
        if reply.Some? {
          replies := replies + [reply.value];
        }
        i := i + 1;
      }
      assert messages[..i] == messages;
    }

    /**
     * `connection_handler`: the first message selects registration (the second
     * message is the registration), a client session (the rest are requests) or
     * nothing at all.
     */
    method ConnectionHandler(first: Option<string>, rest: seq<string>, socket: int) returns (replies: seq<string>)
      requires Valid()
      modifies this, storageServers, pathToServerMap.table
      ensures Valid()
      ensures Identify(first) != Registration ==>
        && numStorageServers == old(numStorageServers)
        && storageServers[..] == old(storageServers[..])
        && PathIndex() == old(PathIndex())
      ensures Identify(first) == NoAction ==> replies == []
      ensures Identify(first) == ClientSession ==> replies == ClientReplies(PathIndex(), Registry(), rest)
      ensures Identify(first) == Registration ==>
        && replies == (match RegistrationReply(SecondMessage(rest), old(numStorageServers)) {
                         case Some(r) => [r]
                         case None => []
                       })
        && RegistrationStep(SecondMessage(rest), socket, old(numStorageServers), old(storageServers[..]), old(PathIndex()),
                            numStorageServers, storageServers[..], PathIndex())
    {
      match Identify(first) {
        case Registration =>
          var reply := HandleStorageServerRegistration(SecondMessage(rest), socket);
          replies := if reply.Some? then [reply.value] else [];
        case ClientSession =>
          replies := HandleClientRequest(rest);
        case NoAction =>
          replies := [];
      }
    }
  }
}
