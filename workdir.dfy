/** The extension's working directory, seen as its top-level entries, each
    holding files (paths relative to the entry) with their executable bit. */
module Workdir {

  /** Files inside one entry: relative path to executable bit. */
  type Files = map<string, bool>

  /** Top-level entries of the working directory. */
  type Dir = map<string, Files>

  predicate HasPrefix(name: string, prefix: string)
  {
    prefix <= name
  }

  /** Whether `entry/file` names a file on disk. */
  predicate PathExists(d: Dir, entry: string, file: string)
  {
    entry in d && file in d[entry]
  }

  /** Entries of `names` that a sweep for `prefix` removes: those with the
      prefix that can be deleted. */
  function Doomed(names: set<string>, prefix: string, undeletable: set<string>): set<string>
  {
    set n | n in names && HasPrefix(n, prefix) && n !in undeletable
  }

  /** The directory after deleting every entry that starts with `prefix`,
      where a deletion of an entry in `undeletable` fails and leaves it. */
  function Swept(d: Dir, prefix: string, undeletable: set<string>): (r: Dir)
    ensures forall n :: n in r <==> n in d && (!HasPrefix(n, prefix) || n in undeletable)
    ensures forall n :: n in r ==> r[n] == d[n]
  {
    d - Doomed(d.Keys, prefix, undeletable)
  }

  /** The directory after unpacking `files` into `entry`, created if missing;
      unpacked files replace existing ones of the same path. */
  function Extracted(d: Dir, entry: string, files: Files): (r: Dir)
    ensures r.Keys == d.Keys + {entry}
    ensures forall n :: n in d && n != entry ==> r[n] == d[n]
    ensures forall f :: PathExists(r, entry, f) <==> f in files || PathExists(d, entry, f)
    ensures forall f :: f in files ==> f in r[entry] && r[entry][f] == files[f]
    ensures entry in d ==> forall f :: f in d[entry] && f !in files ==> f in r[entry] && r[entry][f] == d[entry][f]
  {
    d[entry := (if entry in d then d[entry] else map[]) + files]
  }

  /** The directory after setting the executable bit of `entry/file`. */
  function WithExecutable(d: Dir, entry: string, file: string): (r: Dir)
    requires PathExists(d, entry, file)
    ensures r.Keys == d.Keys
    ensures forall n :: n in d && n != entry ==> r[n] == d[n]
    ensures r[entry].Keys == d[entry].Keys && r[entry][file]
    ensures forall f :: f in d[entry] && f != file ==> r[entry][f] == d[entry][f]
  {
    d[entry := d[entry][file := true]]
  }
}
