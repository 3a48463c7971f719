/**
 publishGeneration of internal/capture/capture.go: a finished capture and its metadata take
 the place of the previous pair by renames, each of which may fail. What holds of the files
 whichever calls fail is proved of the reference; the method refines it.
 */
module Publication {
  import opened Prelude

  type File = Option<seq<byte>>

  /** The files of one kind: the temporary one, the one readers look for, and the backup named ".previous". */
  datatype Slot = Slot(temp: File, current: File, backup: File)

  datatype Directory = Directory(capture: Slot, metadata: Slot)

  /** Which calls succeed, if what they rename is there; that of a removal is never looked at. */
  datatype Env = Env(
    cleared: bool, kept: bool, metaCleared: bool, metaKept: bool, put: bool, metaPut: bool,
    withdrawn: bool, restored: bool, metaRestored: bool, dropped: bool, metaDropped: bool)

  /** The current file goes to the backup, whose older one was removed or is replaced. */
  function BackedUp(s: Slot, cleared: bool, works: bool): Slot {
    if s.current.None? then s
    else if works then s.(current := None, backup := s.current)
    else if cleared then s.(backup := None)
    else s
  }

  function Restored(s: Slot, works: bool): Slot {
    if works && s.backup.Some? then s.(current := s.backup, backup := None) else s
  }

  function Installed(s: Slot): Slot { s.(temp := None, current := s.temp) }

  /** The files behind publishGeneration, and whether it succeeded. */
  function Published(d: Directory, env: Env): (Directory, bool) {
    var capture := BackedUp(d.capture, env.cleared, env.kept);
    if d.capture.current.Some? && !env.kept then (Directory(capture, d.metadata), false)
    else
      var metadata := BackedUp(d.metadata, env.metaCleared, env.metaKept);
      if d.metadata.current.Some? && !env.metaKept then (Directory(Restored(capture, env.restored), metadata), false)
      else Installs(Directory(capture, metadata), env)
  }

  /** Its second half, behind the backups. */
  function Installs(d: Directory, env: Env): (Directory, bool) {
    if !env.put || d.capture.temp.None? then
      (Directory(Restored(d.capture, env.restored), Restored(d.metadata, env.metaRestored)), false)
    else
      var capture := Installed(d.capture);
      if !env.metaPut || d.metadata.temp.None? then
        var withdrawn := if env.withdrawn then capture.(current := None) else capture;
        (Directory(Restored(withdrawn, env.restored), Restored(d.metadata, env.metaRestored)), false)
      else
        var metadata := Installed(d.metadata);
        (Directory(if env.dropped then capture.(backup := None) else capture,
                   if env.metaDropped then metadata.(backup := None) else metadata), true)
  }

  /** The files as the calls change them. */
  class Disk {
    var capture: Slot
    var metadata: Slot

    function View(): Directory
      reads this
    {
      Directory(capture, metadata)
    }

    constructor (d: Directory)
      ensures View() == d
    {
      capture, metadata := d.capture, d.metadata;
    }

    method PublishGeneration(env: Env) returns (ok: bool)
      modifies this
      ensures (View(), ok) == Published(old(View()), env)
    {
      if capture.current.Some? {
        if env.cleared { capture := capture.(backup := None); }
        if !env.kept { return false; }
        capture := capture.(current := None, backup := capture.current);
      }
      if metadata.current.Some? {
        if env.metaCleared { metadata := metadata.(backup := None); }
        if !env.metaKept {
          Restore(env.restored, false);
          return false;
        }
        metadata := metadata.(current := None, backup := metadata.current);
      }
      ok := Install(env);
    }

    /** The second half: both temporary files take their places, or the backups return. */
    method Install(env: Env) returns (ok: bool)
      modifies this
      ensures (View(), ok) == Installs(old(View()), env)
    {
      if !env.put || capture.temp.None? {
        Restore(env.restored, env.metaRestored);
        return false;
      }
      capture := capture.(temp := None, current := capture.temp);
      if !env.metaPut || metadata.temp.None? {
        if env.withdrawn { capture := capture.(current := None); }
        Restore(env.restored, env.metaRestored);
        return false;
      }
      metadata := metadata.(temp := None, current := metadata.temp);
      if env.dropped { capture := capture.(backup := None); }
      if env.metaDropped { metadata := metadata.(backup := None); }
      return true;
    }

    /** The renames of a rollback, as far as they are made and succeed. */
    method Restore(restored: bool, metaRestored: bool)
      modifies this
      ensures capture == Restored(old(capture), restored) && metadata == Restored(old(metadata), metaRestored)
    {
      if restored && capture.backup.Some? {
        capture := capture.(current := capture.backup, backup := None);
      }
      if metaRestored && metadata.backup.Some? {
        metadata := metadata.(current := metadata.backup, backup := None);
      }
    }

    /** What Close does with the temporary files of a capture that failed. */
    method Discard(removed: bool, metaRemoved: bool)
      modifies this
      ensures capture == (if removed then old(capture).(temp := None) else old(capture))
      ensures metadata == (if metaRemoved then old(metadata).(temp := None) else old(metadata))
    {
      if removed { capture := capture.(temp := None); }
      if metaRemoved { metadata := metadata.(temp := None); }
    }
  }

  // ---------------------------------------------------------------- all of the pair or nothing

  /** Readers find the same capture and the same metadata. */
  predicate SamePair(d: Directory, d': Directory) {
    d.capture.current == d'.capture.current && d.metadata.current == d'.metadata.current
  }

  /** It succeeds exactly if the renames it needs do, and then readers find the new pair. */
  lemma PublishedExactly(d: Directory, env: Env)
    ensures var (d', ok) := Published(d, env);
            && (ok <==> (d.capture.current.Some? ==> env.kept) && (d.metadata.current.Some? ==> env.metaKept)
                        && d.capture.temp.Some? && env.put && d.metadata.temp.Some? && env.metaPut)
            && (ok ==> d'.capture.current == d.capture.temp && d'.metadata.current == d.metadata.temp)
            && (ok ==> d'.capture.temp == None && d'.metadata.temp == None)
            && (ok && env.dropped ==> d'.capture.backup == None) && (ok && env.metaDropped ==> d'.metadata.backup == None)
  {
  }

  /** The file is in its place, or in its backup. */
  predicate Safe(s: Slot, s': Slot) { s.current.Some? ==> s.current in {s'.current, s'.backup} }

  /** Whichever calls fail, a failure loses neither file of the old pair. */
  lemma NothingLost(d: Directory, env: Env)
    requires !Published(d, env).1
    ensures var d' := Published(d, env).0; Safe(d.capture, d'.capture) && Safe(d.metadata, d'.metadata)
  {
  }

  /** A backup of an earlier generation stands where no current file is. */
  predicate Stale(s: Slot) { s.current.None? && s.backup.Some? }

  /**
   If the calls of the rollback succeed, a failure leaves readers the old pair, unless a stale
   backup returned where nothing was; a failure of the very first rename returns nothing.
   */
  lemma RestoredExactly(d: Directory, env: Env)
    requires !Published(d, env).1 && env.withdrawn && env.restored && env.metaRestored
    ensures SamePair(d, Published(d, env).0)
            <==> (!Stale(d.capture) && !Stale(d.metadata)) || (d.capture.current.Some? && !env.kept)
  {
  }

  /** For one: no capture was there but a stale backup, the last rename fails, and readers find the stale capture. */
  lemma StaleReturns(stale: seq<byte>, capture: seq<byte>, metadata: seq<byte>)
    ensures var d := Directory(Slot(Some(capture), None, Some(stale)), Slot(Some(metadata), None, None));
            var env := Env(true, true, true, true, true, false, true, true, true, true, true);
            !Published(d, env).1 && Published(d, env).0.capture.current == Some(stale)
  {
  }
}
