/** Small durable documents. Every journal of a cell is one file that is replaced
    by writing a temporary file, renaming it, and syncing the directory. */
module Journals {

  datatype Option<+T> = None | Some(value: T)

  /** How one replacement ends: before the rename, after the rename but with a
      failed directory sync, or fully durable. Only the last one is a success. */
  datatype WriteOutcome = NotRenamed | RenamedUnsynced | Synced

  /** `visible` is what a running machine reads back. `possible` is every document
      a power loss may leave behind. */
  datatype Disk<T> = Disk(visible: T, possible: set<T>)

  function Fresh<T(==)>(document: T): Disk<T> {
    Disk(document, {document})
  }

  function Write<T(==)>(disk: Disk<T>, document: T, outcome: WriteOutcome): Disk<T> {
    match outcome
    case NotRenamed => disk
    case RenamedUnsynced => Disk(document, disk.possible + {document})
    case Synced => Fresh(document)
  }

  ghost predicate Coherent<T(!new)>(disk: Disk<T>) {
    disk.visible in disk.possible
  }

  /** The part of a disk that one projection of the documents can see. */
  ghost function Part<T(!new), U(!new)>(disk: Disk<T>, part: T -> U): Disk<U> {
    Disk(part(disk.visible), set document | document in disk.possible :: part(document))
  }

}
