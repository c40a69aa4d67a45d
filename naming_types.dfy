/**
 * The constants and record shapes of the naming server (NFS/namingServer.h).
 * Pointers become indices: a path-index node names the registry slot its
 * `StorageServer *server` points into, and a bucket's chain of `next` links
 * becomes a sequence, head first.
 */
module NamingTypes {

  const MAX_STORAGE_SERVERS: nat := 10
  const BUFFER_SIZE: nat := 1024
  const MAX_PATH_LENGTH: nat := 256
  const HASH_TABLE_SIZE: nat := 100

  /** The first dimension of `accessible_paths[10][MAX_PATH_LENGTH]`. */
  const MAX_PATHS_PER_SERVER: nat := 10

  /** One registry slot; `num_paths` is the length of `accessiblePaths`. */
  datatype StorageServer = StorageServer(
    ipAddress: string,
    nmPort: int,
    clientPort: int,
    serverPort: int,
    accessiblePaths: seq<string>,
    socket: int,
    isActive: int)

  /** A slot of the zero-initialised global registry that no registration has written. */
  const EmptySlot := StorageServer("", 0, 0, 0, [], 0, 0)

  /** One node of a bucket chain: the path key and the registry slot it refers to. */
  datatype HashNode = HashNode(path: string, server: nat)

  /** The path fits a `char[MAX_PATH_LENGTH]` field together with its terminator. */
  predicate FitsPathField(p: string) {
    |p| < MAX_PATH_LENGTH
  }

  /** What a registered slot holds: at most ten paths, each fitting its field, and the live flag set. */
  predicate WellFormedServer(s: StorageServer) {
    && |s.accessiblePaths| <= MAX_PATHS_PER_SERVER
    && (forall i :: 0 <= i < |s.accessiblePaths| ==> FitsPathField(s.accessiblePaths[i]))
    && s.isActive == 1
  }
}
