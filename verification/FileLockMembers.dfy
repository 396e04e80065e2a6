/** FileAccessManager's own data, and the stretches of its methods that run under the
    mutex.  Normalising a path belongs to the file system library and is a function here. */
module FileLockMembers {
  import opened FileLocks

  class FileAccessManager {
    const uniquePath: string -> Key
    var lockedFiles: set<Key>

    constructor (uniquePath: string -> Key)
      ensures this.uniquePath == uniquePath && lockedFiles == {}
    {
      this.uniquePath := uniquePath;
      lockedFiles := {};
    }

    /** LockFile from taking the mutex to giving it up: true if the caller has to sleep.
        This is what the read and write managers do in the steps of the protocol. */
    method LockFile(path: string) returns (mustWait: bool)
      modifies this
      ensures mustWait <==> uniquePath(path) in old(lockedFiles)
      ensures uniquePath(path) in lockedFiles
      ensures forall k :: k != uniquePath(path) ==> (k in lockedFiles <==> k in old(lockedFiles))
      ensures forall s: State, t: nat | Enabled(s, LockRead(t)) && s.phases[t].op.key == uniquePath(path) ::
        s.read == old(lockedFiles) ==>
          Apply(s, LockRead(t)).read == lockedFiles && (mustWait <==> Apply(s, LockRead(t)).phases[t].AsleepRead?)
      ensures forall s: State, t: nat | Enabled(s, LockWrite(t)) && s.phases[t].op.key == uniquePath(path) ::
        s.write == old(lockedFiles) ==>
          Apply(s, LockWrite(t)).write == lockedFiles && (mustWait <==> Apply(s, LockWrite(t)).phases[t].AsleepWrite?)
    {
      var pathKey := uniquePath(path);
      if pathKey in lockedFiles {
        return true;
      }
      lockedFiles := lockedFiles + {pathKey};
      return false;
    }

    /** UnlockFile up to its notification; unlocking what is not locked changes nothing. */
    method UnlockFile(path: string) returns (wasLocked: bool)
      modifies this
      ensures wasLocked <==> uniquePath(path) in old(lockedFiles)
      ensures uniquePath(path) !in lockedFiles
      ensures forall k :: k != uniquePath(path) ==> (k in lockedFiles <==> k in old(lockedFiles))
      ensures forall s: State, t: nat | Enabled(s, UnlockRead(t)) && s.phases[t].op.key == uniquePath(path) ::
        s.read == old(lockedFiles) ==> Apply(s, UnlockRead(t)).read == lockedFiles
      ensures forall s: State, t: nat | Enabled(s, UnlockWrite(t)) && s.phases[t].op.key == uniquePath(path) ::
        s.write == old(lockedFiles) ==> Apply(s, UnlockWrite(t)).write == lockedFiles
    {
      var pathKey := uniquePath(path);
      wasLocked := pathKey in lockedFiles;
      lockedFiles := lockedFiles - {pathKey};
    }
  }
}
