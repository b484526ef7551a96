/** A directory tree as a value: no links, no permissions. */
module FileTree {
  import opened Common

  type Name = string
  type Path = seq<Name>

  datatype Entry = File(content: string) | Dir(entries: map<Name, Entry>)

  const EMPTY_DIR := Dir(map[])

  function At(t: Entry, n: Name): Option<Entry> {
    if t.Dir? && n in t.entries then Some(t.entries[n]) else None
  }

  function Lookup(e: Option<Entry>, path: Path): Option<Entry>
    decreases |path|
  {
    if path == [] || e.None? then e else Lookup(At(e.value, path[0]), path[1..])
  }

  function FileAt(e: Option<Entry>, path: Path): Option<string> {
    match Lookup(e, path)
    case Some(File(content)) => Some(content)
    case _ => None
  }
}
