/** The disk as the release gate sees it: files, directories and links by their real places,
    and the reading of a path that follows the links on its way. */
module GateDisk {
  import opened Json

  /** Everything is kept under its real place: the text that no link is part of. A link says
      which place it leads to. */
  datatype Disk = Disk(files: map<string, Bytes>, directories: set<string>, links: map<string, string>)

  // ---------------------------------------------------------------- path texts

  function Join(dir: string, name: string): string {
    dir + "/" + name
  }

  function LastSlash(path: string): (i: int)
    ensures -1 <= i < |path|
    ensures i >= 0 ==> path[i] == '/'
    ensures forall k :: i < k < |path| ==> path[k] != '/'
  {
    if path == "" then -1
    else if path[|path| - 1] == '/' then |path| - 1
    else LastSlash(path[..|path| - 1])
  }

  function Parent(path: string): string
    requires LastSlash(path) >= 0
  {
    path[..LastSlash(path)]
  }

  function LastName(path: string): string {
    path[LastSlash(path) + 1..]
  }

  lemma JoinParts(dir: string, name: string)
    requires '/' !in name
    ensures LastSlash(Join(dir, name)) >= 0 && Parent(Join(dir, name)) == dir && LastName(Join(dir, name)) == name
  {
    var path := Join(dir, name);
    assert path[|dir|] == '/';
    assert path[|dir| + 1..] == name && path[..|dir|] == dir;
    forall k | |dir| < k < |path|
      ensures path[k] != '/'
    {
      assert path[k] == name[k - |dir| - 1];
    }
    assert LastSlash(path) == |dir|;
  }

  lemma PartsJoin(path: string)
    requires LastSlash(path) >= 0
    ensures path == Join(Parent(path), LastName(path)) && '/' !in LastName(path)
  {
  }

  predicate IsUnder(dir: string, path: string) {
    |path| > |dir| && path[..|dir| + 1] == dir + "/"
  }

  lemma JoinIsUnder(dir: string, name: string)
    ensures Join(dir, name) == (dir + "/") + name
    ensures Join(dir, name)[..|dir| + 1] == dir + "/" && Join(dir, name)[|dir| + 1..] == name
  {
  }

  lemma UnderIsJoin(dir: string, path: string)
    requires IsUnder(dir, path)
    ensures path == Join(dir, path[|dir| + 1..])
  {
    JoinIsUnder(dir, path[|dir| + 1..]);
  }

  lemma JoinInjective(dir: string, a: string, b: string)
    requires Join(dir, a) == Join(dir, b)
    ensures a == b
  {
    JoinIsUnder(dir, a);
    JoinIsUnder(dir, b);
  }

  lemma PortableHasNoSlash(h: Host, name: string)
    requires IsPortableName(h, name)
    ensures '/' !in name && name != ""
  {
  }

  // ---------------------------------------------------------------- following links

  /** Where a path leads: every part is looked up where the parts before it lead. */
  function Place(links: map<string, string>, path: string): string
    decreases |path|
  {
    var entry := if LastSlash(path) >= 0 then Join(Place(links, Parent(path)), LastName(path)) else path;
    if entry in links then links[entry] else entry
  }

  /** Where the path's own directory entry is: a link there is not followed. */
  function EntryAt(links: map<string, string>, path: string): string {
    if LastSlash(path) >= 0 then Join(Place(links, Parent(path)), LastName(path)) else path
  }

  lemma PlaceOfEntry(links: map<string, string>, path: string)
    ensures var entry := EntryAt(links, path); Place(links, path) == if entry in links then links[entry] else entry
  {
  }

  lemma EntryOfJoin(links: map<string, string>, dir: string, name: string)
    requires '/' !in name
    ensures EntryAt(links, Join(dir, name)) == Join(Place(links, dir), name)
  {
    JoinParts(dir, name);
  }

  /** Links lead to real places. */
  ghost predicate AreLinksFollowed(links: map<string, string>) {
    forall entry :: entry in links ==> Place(links, links[entry]) == links[entry]
  }

  /** A real place leads to itself. */
  lemma {:induction false} PlaceIsFinal(links: map<string, string>, path: string)
    requires AreLinksFollowed(links)
    ensures Place(links, Place(links, path)) == Place(links, path)
    decreases |path|
  {
    PlaceOfEntry(links, path);
    var entry := EntryAt(links, path);
    if entry !in links && LastSlash(path) >= 0 {
      PlaceIsFinal(links, Parent(path));
      PartsJoin(path);
      EntryOfJoin(links, Place(links, Parent(path)), LastName(path));
      PlaceOfEntry(links, entry);
    }
  }

  // ---------------------------------------------------------------- reading

  predicate IsFile(d: Disk, path: string) {
    Place(d.links, path) in d.files
  }

  function ContentAt(d: Disk, path: string): Bytes
    requires IsFile(d, path)
  {
    d.files[Place(d.links, path)]
  }

  predicate HasHashes(h: Host, d: Disk, path: string, sha1: string, sha256: string) {
    IsFile(d, path) && h.sha1(ContentAt(d, path)) == sha1 && h.sha256(ContentAt(d, path)) == sha256
  }

  /** The places below a directory, relative to it. */
  function Below(places: set<string>, dir: string): set<string> {
    set place | place in places && IsUnder(dir, place) :: place[|dir| + 1..]
  }

  lemma UnderIsBelow(places: set<string>, dir: string, place: string)
    requires place in places && IsUnder(dir, place)
    ensures place[|dir| + 1..] in Below(places, dir)
  {
  }

  lemma BelowIsUnder(places: set<string>, dir: string, name: string)
    ensures name in Below(places, dir) <==> Join(dir, name) in places
  {
    JoinIsUnder(dir, name);
    if name in Below(places, dir) {
      var place :| place in places && IsUnder(dir, place) && place[|dir| + 1..] == name;
      UnderIsJoin(dir, place);
    } else if Join(dir, name) in places {
      assert IsUnder(dir, Join(dir, name));
    }
  }

  /** `os.path.lexists`, and nothing was left below either. */
  predicate Exists(d: Disk, entry: string) {
    || entry in d.files || entry in d.directories || entry in d.links
    || Below(d.files.Keys, entry) != {} || Below(d.directories, entry) != {} || Below(d.links.Keys, entry) != {}
  }

  /** A directory that is no link. */
  predicate IsRealDirectory(d: Disk, entry: string) {
    entry in d.directories && entry !in d.links
  }

  /** What a recursive listing takes for files: links to files, too. */
  function FilesSeen(d: Disk, dir: string): set<string> {
    if dir in d.directories then
      Below(d.files.Keys, dir) + Below((set e | e in d.links && d.links[e] in d.files), dir)
    else {}
  }

  function DirectoriesSeen(d: Disk, dir: string): set<string> {
    if dir in d.directories then
      Below(d.directories, dir) + Below((set e | e in d.links && d.links[e] in d.directories), dir)
    else {}
  }

  /** Nothing but plain files is directly or deeper inside. */
  predicate HoldsPlainFiles(d: Disk, dir: string) {
    Below(d.directories, dir) == {} && Below(d.links.Keys, dir) == {}
  }
}
