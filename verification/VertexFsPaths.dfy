/** When the walk from an inode to the root ends. The original recurses over parents without a bound; the model
    gives up after as many parents as there are inodes. */
module VertexFsPaths {
  import opened Results
  import opened Bytes
  import opened VertexFs
  import opened VertexFsUpdate

  /** The inode the walk from `id` has reached after `n` parents, unless it has ended: at the root or at an inode
      that does not exist. */
  ghost function Reached(inodes: Inodes, id: nat, n: nat): Option<nat>
    decreases n
  {
    if n == 0 then Some(id)
    else if id !in inodes || id == INODE_ROOT then None
    else Reached(inodes, inodes[id].parent, n - 1)
  }

  ghost predicate WalkEnds(inodes: Inodes, id: nat) {
    exists n: nat :: Reached(inodes, id, n) == None
  }

  ghost predicate ParentsExist(inodes: Inodes) {
    forall id :: id in inodes && id != INODE_ROOT ==> inodes[id].parent in inodes
  }

  lemma GraphHasParents(inodes: Inodes, directory: seq<DirectoryEntry>)
    requires GraphOk(inodes, directory)
    ensures ParentsExist(inodes)
  {
    forall id | id in inodes && id != INODE_ROOT
      ensures inodes[id].parent in inodes
    {
      var i :| 0 <= i < |directory| && directory[i].child == id;
      assert EntryOk(inodes, directory[i]);
    }
  }

  lemma {:induction false} EndsWithPath(inodes: Inodes, id: nat, n: nat)
    requires ParentsExist(inodes) && id in inodes
    ensures Reached(inodes, id, n) == None <==> InodePath(inodes, id, n).Some?
    decreases n
  {
    if n > 0 && id != INODE_ROOT { EndsWithPath(inodes, inodes[id].parent, n - 1); }
  }

  /** The model finds a path exactly when the original's recursion ends. */
  lemma WalkExact(inodes: Inodes, id: nat)
    requires ParentsExist(inodes) && id in inodes
    ensures WalkEnds(inodes, id) <==> InodePath(inodes, id, |inodes|).Some?
  {
    if WalkEnds(inodes, id) {
      var n: nat :| Reached(inodes, id, n) == None;
      EndsWithPath(inodes, id, n);
      FuelEnough(inodes, id, n);
    }
    EndsWithPath(inodes, id, |inodes|);
  }

  /** The checks on files and directories, without the paths. */
  ghost predicate ContentsOk(l: Layout, image: Image, inodes: Inodes, free: seq<Byte>, journal: Journal)
    requires |free| == SECTOR_SIZE
  {
    && (forall id :: id in inodes ==> inodes[id].kind == KIND_DIR || inodes[id].kind == KIND_FILE)
    && (forall id :: id in inodes && inodes[id].kind == KIND_DIR ==> DirectoryOk(inodes[id]))
    && (forall id :: id in inodes && inodes[id].kind == KIND_FILE ==> FileOk(l, image, free, inodes[id], journal))
    && (forall a, b :: a in inodes && b in inodes && a != b ==>
          inodes[a].kind == KIND_FILE && inodes[b].kind == KIND_FILE ==> Disjoint(inodes[a], inodes[b]))
  }

  /** On a consistent directory graph the last check passes exactly when the contents do and every walk above a
      file ends: the only images it refuses for want of a path are those on which the original does not
      terminate. */
  lemma PathsDecided(l: Layout, image: Image, inodes: Inodes, directory: seq<DirectoryEntry>, free: seq<Byte>,
                     journal: Journal)
    requires |free| == SECTOR_SIZE && GraphOk(inodes, directory)
    ensures InodesOk(l, image, inodes, free, journal) <==>
            && ContentsOk(l, image, inodes, free, journal)
            && (forall id :: id in inodes && inodes[id].kind == KIND_FILE ==> WalkEnds(inodes, id))
  {
    hide FileOk, DirectoryOk, Disjoint, GraphOk, InodePath, WalkEnds;
    GraphHasParents(inodes, directory);
    forall id | id in inodes
      ensures WalkEnds(inodes, id) <==> InodePath(inodes, id, |inodes|).Some?
    {
      WalkExact(inodes, id);
    }
  }

  // ----- Looking a path up -----

  ghost predicate HasPath(inodes: Inodes, path: seq<Byte>, id: nat) {
    id in inodes && InodePath(inodes, id, |inodes|) == Some(path)
  }

  /** The inode a path stands for: the smallest id with that path. */
  ghost predicate IsFirst(inodes: Inodes, path: seq<Byte>, id: nat) {
    HasPath(inodes, path, id) && forall j :: HasPath(inodes, path, j) ==> id <= j
  }

  /** `j` comes no later than any inode of the path. */
  ghost predicate Tried(inodes: Inodes, path: seq<Byte>, j: nat) {
    j in inodes && forall i :: HasPath(inodes, path, i) ==> j <= i
  }

  /** Every inode up to the first of the path has a path, or every inode if none has this one. */
  ghost predicate LookupEnds(inodes: Inodes, path: seq<Byte>) {
    forall j :: Tried(inodes, path, j) ==> InodePath(inodes, j, |inodes|).Some?
  }

  ghost function Least(todo: set<nat>): (least: nat)
    requires todo != {}
    ensures least in todo && forall j :: j in todo ==> least <= j
    decreases |todo|
  {
    var x :| x in todo;
    var rest := todo - {x};
    if rest == {} then
      assert todo == {x};
      x
    else
      var y := Least(rest);
      assert forall j :: j in todo ==> j == x || j in rest;
      if x < y then x else y
  }

  /** The original's lookup over the inodes `todo`, in order of their ids, each walked to the root: what it
      answers if no walk takes more than `depth` parents, nothing if one does. */
  ghost function Search(inodes: Inodes, path: seq<Byte>, todo: set<nat>, depth: nat): Option<Option<nat>>
    decreases |todo|
  {
    if todo == {} then Some(None)
    else
      var id := Least(todo);
      if Reached(inodes, id, depth).Some? then None
      else if InodePath(inodes, id, depth) == Some(path) then Some(Some(id))
      else Search(inodes, path, todo - {id}, depth)
  }

  ghost predicate SearchEnds(inodes: Inodes, path: seq<Byte>) {
    exists depth :: Search(inodes, path, inodes.Keys, depth).Some?
  }

  /** All inodes below `todo` have been tried and have other paths. */
  ghost predicate Remaining(inodes: Inodes, path: seq<Byte>, todo: set<nat>) {
    && todo <= inodes.Keys
    && (forall j, k :: j in inodes && j !in todo && k in todo ==> j < k)
    && (forall j :: j in inodes && j !in todo ==> !HasPath(inodes, path, j))
  }

  lemma RemainingStep(inodes: Inodes, path: seq<Byte>, todo: set<nat>, id: nat)
    requires Remaining(inodes, path, todo) && id in todo && (forall j :: j in todo ==> id <= j)
    ensures Tried(inodes, path, id)
    ensures !HasPath(inodes, path, id) ==> Remaining(inodes, path, todo - {id})
    ensures HasPath(inodes, path, id) ==>
              IsFirst(inodes, path, id) && forall j :: Tried(inodes, path, j) && j in todo ==> j == id
  {
    hide InodePath;
  }

  /** A search that ends has walked every inode up to the first of the path, and answers with that one. */
  lemma {:induction false} SearchWalks(inodes: Inodes, path: seq<Byte>, todo: set<nat>, depth: nat)
    requires ParentsExist(inodes) && Remaining(inodes, path, todo) && Search(inodes, path, todo, depth).Some?
    ensures forall j :: Tried(inodes, path, j) && j in todo ==> WalkEnds(inodes, j)
    ensures var found := Search(inodes, path, todo, depth).value;
            if found.Some? then IsFirst(inodes, path, found.value) else forall id :: !HasPath(inodes, path, id)
    decreases |todo|
  {
    hide InodePath, Reached, WalkEnds, Remaining, IsFirst, Tried;
    if todo == {} {
      NothingRemains(inodes, path);
    } else {
      var id := Least(todo);
      AllExist(inodes, path, todo);
      RemainingStep(inodes, path, todo, id);
      PathWithin(inodes, id, depth);
      if InodePath(inodes, id, depth) != Some(path) {
        SearchWalks(inodes, path, todo - {id}, depth);
      }
    }
  }

  lemma AllRemain(inodes: Inodes, path: seq<Byte>)
    ensures Remaining(inodes, path, inodes.Keys)
  {}

  lemma TriedExist(inodes: Inodes, path: seq<Byte>)
    ensures forall j :: Tried(inodes, path, j) ==> j in inodes
  {}

  lemma NothingRemains(inodes: Inodes, path: seq<Byte>)
    requires Remaining(inodes, path, {})
    ensures forall id :: !HasPath(inodes, path, id)
  {}

  lemma AllExist(inodes: Inodes, path: seq<Byte>, todo: set<nat>)
    requires Remaining(inodes, path, todo)
    ensures todo <= inodes.Keys
  {}

  /** A walk that ends within some depth ends, with the path the bounded walk finds. */
  lemma PathWithin(inodes: Inodes, id: nat, depth: nat)
    requires ParentsExist(inodes) && id in inodes && Reached(inodes, id, depth) == None
    ensures WalkEnds(inodes, id) && InodePath(inodes, id, depth).Some?
    ensures InodePath(inodes, id, |inodes|) == InodePath(inodes, id, depth)
  {
    EndsWithPath(inodes, id, depth);
    FuelEnough(inodes, id, depth);
  }

  lemma {:induction false} WalksSearch(inodes: Inodes, path: seq<Byte>, todo: set<nat>)
    requires ParentsExist(inodes) && Remaining(inodes, path, todo) && LookupEnds(inodes, path)
    ensures Search(inodes, path, todo, |inodes|).Some?
    decreases |todo|
  {
    hide InodePath, Reached, Remaining, Tried;
    if todo != {} {
      var id := Least(todo);
      AllExist(inodes, path, todo);
      RemainingStep(inodes, path, todo, id);
      EndsWithPath(inodes, id, |inodes|);
      if InodePath(inodes, id, |inodes|) != Some(path) {
        WalksSearch(inodes, path, todo - {id});
      }
    }
  }

  /** Where parents exist, as in every verified image, the original's lookup ends if and only if the walk ends
      from every inode up to the first of the path, or from every inode if none has it; the bounded walk tells.
      Whenever it ends it answers with the first inode of the path. */
  lemma LookupDecided(inodes: Inodes, path: seq<Byte>)
    requires ParentsExist(inodes)
    ensures SearchEnds(inodes, path) <==> forall j :: Tried(inodes, path, j) ==> WalkEnds(inodes, j)
    ensures SearchEnds(inodes, path) <==> LookupEnds(inodes, path)
    ensures forall depth :: Search(inodes, path, inodes.Keys, depth).Some? ==>
          var found := Search(inodes, path, inodes.Keys, depth).value;
          if found.Some? then IsFirst(inodes, path, found.value) else forall id :: !HasPath(inodes, path, id)
  {
    hide InodePath, WalkEnds, Search;
    forall j | j in inodes
      ensures WalkEnds(inodes, j) <==> InodePath(inodes, j, |inodes|).Some?
    {
      WalkExact(inodes, j);
    }
    forall depth | Search(inodes, path, inodes.Keys, depth).Some?
      ensures forall j :: Tried(inodes, path, j) ==> WalkEnds(inodes, j)
      ensures var found := Search(inodes, path, inodes.Keys, depth).value;
              if found.Some? then IsFirst(inodes, path, found.value) else forall id :: !HasPath(inodes, path, id)
    {
      SearchWalks(inodes, path, inodes.Keys, depth);
    }
    if LookupEnds(inodes, path) { WalksSearch(inodes, path, inodes.Keys); }
  }

  lemma VerifiedGraph(l: Layout, image: Image)
    requires LayoutOk(l) && Verify(l, image).Ok?
    ensures ParseInodeTable(l, InodeSection(l, image)).Some?
    ensures ParentsExist(ParseInodeTable(l, InodeSection(l, image)).value)
  {
    hide SuperblockOk, ParseInodeTable, ParseDirectory, ParseJournal, FreeMapOk, GraphOk, JournalOk, InodesOk, Reports,
         Section;
    var directory := ParseDirectory(l, Section(image, l.DirectorySector(), l.directorySectors));
    GraphHasParents(ParseInodeTable(l, InodeSection(l, image)).value, directory.value);
  }

  /** On a verified image the original's lookup of a path ends if and only if the walk ends from every inode up
      to the first of that path, or from every inode if there is none. */
  lemma VerifiedLookup(l: Layout, image: Image, path: seq<Byte>)
    requires LayoutOk(l) && Verify(l, image).Ok?
    ensures ParseInodeTable(l, InodeSection(l, image)).Some?
    ensures var inodes := ParseInodeTable(l, InodeSection(l, image)).value;
            && (SearchEnds(inodes, path) <==> forall j :: Tried(inodes, path, j) ==> WalkEnds(inodes, j))
            && (SearchEnds(inodes, path) <==> LookupEnds(inodes, path))
  {
    hide ParseInodeTable, Verify, ParentsExist, SearchEnds, Tried, WalkEnds, LookupEnds;
    VerifiedGraph(l, image);
    LookupDecided(ParseInodeTable(l, InodeSection(l, image)).value, path);
  }
}
