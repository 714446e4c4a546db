/**
 * karx/memory/memory_manager.py: a code map persisted as one JSON file
 * (the primary), with a `.json.bak` backup and a `.tmp` file used for an
 * atomic replace. The three files are the three slots of a `Disk`; what
 * each read or write does is an input (see the Storage module).
 */
module Memory {
  import opened Wrappers
  import opened Storage
  import opened Paths

  /** One entry of the per-file `functions`, `classes` or `variables` lists. */
  datatype Symbol = Symbol(name: string, line: nat)

  /** `code_map["files"][path]`. */
  datatype FileRecord = FileRecord(lastModified: string, size: nat,
                                   functions: seq<Symbol>, classes: seq<Symbol>, variables: seq<Symbol>)

  datatype CodeMap = CodeMap(files: map<string, FileRecord>,
                             functions: map<string, seq<Symbol>>,
                             classes: map<string, seq<Symbol>>,
                             variables: map<string, seq<Symbol>>,
                             lastUpdated: string)

  /** The primary `code_map.json`, the backup `code_map.json.bak` and the temporary `code_map.tmp`; `None` is a missing file. */
  datatype Disk = Disk(primary: Option<Content<CodeMap>>,
                       backup: Option<Content<CodeMap>>,
                       temp: Option<Content<CodeMap>>)

  /** What loading returns, and the disk it leaves behind. */
  datatype Loaded = Loaded(codeMap: CodeMap, disk: Disk)

  /**
   * How each step of `save_memory` goes: creating the directory, copying
   * the primary to the backup, writing the temporary file, and renaming it
   * over the primary.
   */
  datatype SaveIo = SaveIo(dirOk: bool, copy: WriteOutcome, temp: WriteOutcome, renameOk: bool)

  /** The result of `save_memory`, the code map (with its refreshed stamp) and the disk afterwards. */
  datatype Saved = Saved(ok: bool, codeMap: CodeMap, disk: Disk)

  /** What `exists()`, `resolve()` and `stat()` report for the file handed to `add_file`. */
  datatype FileProbe = Missing | Present(modified: string) | StatFails

  predicate IsEmpty(m: CodeMap)
  {
    m.files == map[] && m.functions == map[] && m.classes == map[] && m.variables == map[]
  }

  /** `_create_empty_memory`, and the identical literal at the end of `_load_memory`. */
  function EmptyMemory(now: string): (m: CodeMap)
    ensures IsEmpty(m) && m.lastUpdated == now
  {
    CodeMap(map[], map[], map[], map[], now)
  }

  /**
   * `_load_memory`. A primary that decodes wins. A primary that is missing
   * or does not decode falls back to a backup that decodes, which is
   * written back over the primary. A primary that cannot be read at all
   * raises past the JSON handler into the outer one, so the backup is not
   * even tried. Anything else, including a failed restore (also caught by
   * the outer handler), gives an empty map. Only the primary is ever written.
   */
  function Load(d: Disk, now: string, restore: WriteOutcome): (r: Loaded)
    ensures r.disk.backup == d.backup && r.disk.temp == d.temp
    ensures Decoded(d.primary).Some? ==> r == Loaded(Decoded(d.primary).value, d)
    ensures r.disk.primary != d.primary ==>
              && Decoded(d.primary).None? && Decoded(d.backup).Some?
              && r.disk.primary == Write(d.primary, d.backup.value, restore)
    ensures || Some(r.codeMap) == Decoded(d.primary)
            || Some(r.codeMap) == Decoded(d.backup)
            || r.codeMap == EmptyMemory(now)
    ensures Decoded(r.disk.primary) == Some(r.codeMap) || r.codeMap == EmptyMemory(now)
    ensures d.primary == Some(Unreadable) ==> r == Loaded(EmptyMemory(now), d)
    ensures (d.primary.None? || d.primary == Some(Malformed)) && Decoded(d.backup).Some? ==>
              && r.disk.primary == Write(d.primary, d.backup.value, restore)
              && r.codeMap == (if restore.Written? then Decoded(d.backup).value else EmptyMemory(now))
  {
    match d.primary
    case Some(Doc(m)) => Loaded(m, d)
    case Some(Unreadable) => Loaded(EmptyMemory(now), d)
    case _ =>
      match d.backup
      case Some(Doc(m)) =>
        Loaded(if restore.Written? then m else EmptyMemory(now),
               d.(primary := Write(d.primary, Doc(m), restore)))
      case _ => Loaded(EmptyMemory(now), d)
  }

  /** Second tier: a missing or corrupt primary is rebuilt from a good backup, whose content is returned. */
  lemma LoadRestoresBackup(d: Disk, now: string, m: CodeMap)
    requires d.primary.None? || d.primary == Some(Malformed)
    requires d.backup == Some(Doc(m))
    ensures Load(d, now, Written) == Loaded(m, d.(primary := Some(Doc(m))))
  {
  }

  /** Third tier: when neither file yields a map, the result is an empty map stamped `now`. */
  lemma LoadFallsBackToEmpty(d: Disk, now: string, restore: WriteOutcome)
    requires Decoded(d.primary).None? && Decoded(d.backup).None?
    ensures Load(d, now, restore) == Loaded(EmptyMemory(now), d)
  {
  }

  /**
   * An unreadable primary skips the backup tier: the load gives the empty
   * map, and the next save that goes through copies the unreadable file over
   * the good backup, which is then lost.
   */
  lemma UnreadablePrimaryLosesBackup(b: CodeMap, now: string, restore: WriteOutcome, m: CodeMap, later: string, io: SaveIo)
    requires Save(Disk(Some(Unreadable), Some(Doc(b)), None), m, later, io).ok
    ensures var d := Disk(Some(Unreadable), Some(Doc(b)), None);
            && Load(d, now, restore) == Loaded(EmptyMemory(now), d)
            && Save(d, m, later, io).disk.backup == Some(Unreadable)
  {
  }

  /**
   * `save_memory`, as a function of the disk before it. The copy of the
   * primary to the backup happens only when the primary exists, and copies
   * its bytes whatever they hold (whether a copy of an unreadable file goes
   * through is `io.copy`); the stamp is refreshed in memory once the copy is
   * done, even if a later step fails; the primary changes only through the
   * final rename.
   */
  function Save(d: Disk, m: CodeMap, now: string, io: SaveIo): (r: Saved)
    ensures r.ok <==> && io.dirOk
                      && (d.primary.Some? ==> io.copy.Written?)
                      && io.temp.Written? && io.renameOk
    ensures d.primary.None? ==> r.disk.backup == d.backup
    ensures r.codeMap == m || r.codeMap == m.(lastUpdated := now)
    ensures r.ok ==> && r.codeMap == m.(lastUpdated := now)
                     && r.disk == Disk(Some(Doc(r.codeMap)), if d.primary.Some? then d.primary else d.backup, None)
    ensures !r.ok ==> r.disk.primary == d.primary
    ensures !io.dirOk ==> r == Saved(false, m, d)
    ensures io.dirOk && d.primary.Some? ==> r.disk.backup == Write(d.backup, d.primary.value, io.copy)
    ensures io.dirOk && (d.primary.None? || io.copy.Written?) ==>
              && r.codeMap == m.(lastUpdated := now)
              && r.disk.temp == (if r.ok then None else Write(d.temp, Doc(r.codeMap), io.temp))
    ensures io.dirOk && d.primary.Some? && !io.copy.Written? ==> r.codeMap == m && r.disk.temp == d.temp
  {
    if !io.dirOk then Saved(false, m, d)
    else
      var d1 := if d.primary.Some? then d.(backup := Write(d.backup, d.primary.value, io.copy)) else d;
      if d.primary.Some? && !io.copy.Written? then Saved(false, m, d1)
      else
        var stamped := m.(lastUpdated := now);
        var d2 := d1.(temp := Write(d1.temp, Doc(stamped), io.temp));
        if !io.temp.Written? || !io.renameOk then Saved(false, stamped, d2)
        else Saved(true, stamped, d2.(primary := d2.temp, temp := None))
  }

  /** A successful save is what the next load returns, and that load changes nothing on disk. */
  lemma SaveThenLoad(d: Disk, m: CodeMap, now: string, io: SaveIo, later: string, restore: WriteOutcome)
    requires Save(d, m, now, io).ok
    ensures var s := Save(d, m, now, io);
            Load(s.disk, later, restore) == Loaded(m.(lastUpdated := now), s.disk)
  {
  }

  /**
   * A save never loses a good map: when the primary decoded before the
   * save, the next load returns either the newly saved map or the old one.
   */
  lemma SaveKeepsGoodPrimary(d: Disk, m: CodeMap, now: string, io: SaveIo, later: string, restore: WriteOutcome)
    requires Decoded(d.primary).Some?
    ensures var s := Save(d, m, now, io);
            Load(s.disk, later, restore).codeMap == (if s.ok then m.(lastUpdated := now) else Decoded(d.primary).value)
  {
  }

  /**
   * A primary that cannot be read as text is still copied byte for byte, so
   * with every step succeeding the save goes through: the backup takes the
   * unreadable file and the primary the stamped map.
   */
  lemma SaveOverUnreadablePrimary(d: Disk, m: CodeMap, now: string)
    requires d.primary == Some(Unreadable)
    ensures var s := Save(d, m, now, SaveIo(true, Written, Written, true));
            && s.ok && s.disk.backup == Some(Unreadable)
            && Decoded(s.disk.primary) == Some(m.(lastUpdated := now))
  {
  }

  /**
   * The copy does not check what it copies: a corrupt primary that the last
   * load could not restore replaces a good backup on the next save, even
   * when a later step of that save fails.
   */
  lemma SaveBacksUpCorruptPrimary(d: Disk, m: CodeMap, now: string, io: SaveIo)
    requires d.primary == Some(Malformed) && Decoded(d.backup).Some?
    requires io.dirOk && io.copy.Written?
    ensures Decoded(Save(d, m, now, io).disk.backup).None?
  {
  }

  /** `code_map["files"][key] = record`, every other entry kept. */
  function WithFile(m: CodeMap, key: string, rec: FileRecord): (r: CodeMap)
    ensures key in r.files && r.files[key] == rec
    ensures forall k :: k in m.files && k != key ==> k in r.files && r.files[k] == m.files[k]
    ensures r.files.Keys == m.files.Keys + {key}
    ensures r.functions == m.functions && r.classes == m.classes && r.variables == m.variables
    ensures r.lastUpdated == m.lastUpdated
  {
    m.(files := m.files[key := rec])
  }

  /** The record `add_file` builds: the extractors are stubs that return empty lists. */
  function RecordFor(modified: string, content: string): (rec: FileRecord)
    ensures rec.size == |content| && rec.lastModified == modified
    ensures rec.functions == [] && rec.classes == [] && rec.variables == []
  {
    FileRecord(modified, |content|, [], [], [])
  }

  class MemoryManager {
    /** `self.code_map`. */
    var codeMap: CodeMap
    /** The three files on disk. */
    var disk: Disk

    /** `__init__`: the map is whatever `_load_memory` finds. */
    constructor(d: Disk, now: string, restore: WriteOutcome)
      ensures codeMap == Load(d, now, restore).codeMap && disk == Load(d, now, restore).disk
    {
      disk := d;
      codeMap := EmptyMemory(now);
      new;
      codeMap := LoadMemory(now, restore);
    }

    /** `_load_memory`, step by step. */
    method LoadMemory(now: string, restore: WriteOutcome) returns (m: CodeMap)
      modifies this`disk
      ensures Loaded(m, disk) == Load(old(disk), now, restore)
    {
      if disk.primary.Some? {
        match disk.primary.value
        case Doc(p) => return p;
        case Unreadable => return EmptyMemory(now);
        case Malformed =>
      }
      if disk.backup.Some? {
        match disk.backup.value
        case Doc(b) =>
          disk := disk.(primary := Write(disk.primary, Doc(b), restore));
          if !restore.Written? {
            return EmptyMemory(now);
          }
          return b;
        case Unreadable => return EmptyMemory(now);
        case Malformed =>
      }
      m := EmptyMemory(now);
    }

    /** `save_memory`, step by step. */
    method SaveMemory(now: string, io: SaveIo) returns (ok: bool)
      modifies this
      ensures Saved(ok, codeMap, disk) == Save(old(disk), old(codeMap), now, io)
    {
      if !io.dirOk {
        return false;
      }
      if disk.primary.Some? {
        disk := disk.(backup := Write(disk.backup, disk.primary.value, io.copy));
        if !io.copy.Written? {
          return false;
        }
      }
      codeMap := codeMap.(lastUpdated := now);
      disk := disk.(temp := Write(disk.temp, Doc(codeMap), io.temp));
      if !io.temp.Written? {
        return false;
      }
      if !io.renameOk {
        return false;
      }
      disk := disk.(primary := disk.temp, temp := None);
      ok := true;
    }

    /**
     * `add_file`. A file that is missing, or whose stat fails, gives false
     * and changes nothing. Otherwise the entry for the resolved path is set
     * and the result is that of the save, the entry staying in memory
     * whether or not the save succeeds.
     */
    method AddFile(path: PurePath, cwd: Path, content: string, probe: FileProbe, now: string, io: SaveIo)
      returns (ok: bool)
      requires Resolved(cwd)
      modifies this
      ensures !probe.Present? ==> !ok && codeMap == old(codeMap) && disk == old(disk)
      ensures probe.Present? ==>
                var key := Format(Resolve(cwd, path));
                Saved(ok, codeMap, disk)
                  == Save(old(disk), WithFile(old(codeMap), key, RecordFor(probe.modified, content)), now, io)
    {
      if !probe.Present? {
        return false;
      }
      var key := Format(Resolve(cwd, path));
      codeMap := WithFile(codeMap, key, RecordFor(probe.modified, content));
      ok := SaveMemory(now, io);
    }
  }

  /** After `add_file` on an existing file, the entry is in memory even when the save fails. */
  lemma AddedEntryStays(m: CodeMap, key: string, rec: FileRecord, d: Disk, now: string, io: SaveIo)
    ensures var s := Save(d, WithFile(m, key, rec), now, io);
            && key in s.codeMap.files && s.codeMap.files[key] == rec
            && (forall k :: k in m.files && k != key ==> k in s.codeMap.files && s.codeMap.files[k] == m.files[k])
  {
  }
}
