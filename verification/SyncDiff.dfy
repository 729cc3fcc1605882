/** The directory diff of SyncService: which paths to create, modify and delete, and what applying the list yields. */
module SyncDiff {
  import opened Sequences

  type Path = string

  const SECOND: int := 1_000_000_000

  /** The fields of the metadata that the comparison reads; times are nanoseconds. */
  datatype FileMetadata = FileMetadata(size: int, modTime: int, mode: nat, checksum: string)

  type Listing = map<Path, FileMetadata>

  datatype Options = Options(delete: bool, checksum: bool, preservePerms: bool)

  datatype Change =
    | Create(path: Path, source: FileMetadata)
    | Modify(path: Path, source: FileMetadata, target: FileMetadata)
    | Delete(path: Path, target: FileMetadata)

  predicate NeedsSync(src: FileMetadata, target: FileMetadata, options: Options) {
    if options.checksum then src.checksum != target.checksum
    else if src.size != target.size then true
    else
      var timeDiff := src.modTime - target.modTime;
      if timeDiff < -SECOND || timeDiff > SECOND then true
      else options.preservePerms && src.mode != target.mode
  }

  /** The change that a path calls for. */
  predicate Wanted(c: Change, source: Listing, target: Listing, options: Options) {
    match c
    case Create(p, m) => p in source && p !in target && m == source[p]
    case Modify(p, m, t) => p in source && p in target && m == source[p] && t == target[p] && NeedsSync(m, t, options)
    case Delete(p, t) => options.delete && p !in source && p in target && t == target[p]
  }

  /** The list holds exactly the wanted changes, each path once, in any order. */
  ghost predicate IsDiff(changes: seq<Change>, source: Listing, target: Listing, options: Options) {
    && (forall c :: c in changes <==> Wanted(c, source, target, options))
    && (forall i, j :: 0 <= i < j < |changes| ==> changes[i].path != changes[j].path)
  }

  /** The two loops run over maps, in no particular order. */
  method CalculateChanges(source: Listing, target: Listing, options: Options) returns (changes: seq<Change>)
    ensures IsDiff(changes, source, target, options)
  {
    changes := [];
    var left := source.Keys;
    while left != {}
      invariant left <= source.Keys
      invariant forall c :: c in changes <==> !c.Delete? && c.path !in left && Wanted(c, source, target, options)
      invariant forall i, j :: 0 <= i < j < |changes| ==> changes[i].path != changes[j].path
    {
      var path :| path in left;
      left := left - {path};
      if path !in target {
        changes := changes + [Create(path, source[path])];
      } else if NeedsSync(source[path], target[path], options) {
        changes := changes + [Modify(path, source[path], target[path])];
      }
    }
    if options.delete {
      left := target.Keys;
      while left != {}
        invariant left <= target.Keys
        invariant forall c :: c in changes <==> (c.Delete? ==> c.path !in left) && Wanted(c, source, target, options)
        invariant forall i, j :: 0 <= i < j < |changes| ==> changes[i].path != changes[j].path
      {
        var path :| path in left;
        left := left - {path};
        if path !in source {
          changes := changes + [Delete(path, target[path])];
        }
      }
    }
  }

  // ----- Applying the changes to a listing -----

  function ApplyChange(listing: Listing, c: Change): Listing {
    match c
    case Create(p, m) => listing[p := m]
    case Modify(p, m, _) => listing[p := m]
    case Delete(p, _) => listing - {p}
  }

  function Patch(listing: Listing, changes: seq<Change>): Listing {
    if changes == [] then listing else ApplyChange(Patch(listing, changes[..|changes| - 1]), changes[|changes| - 1])
  }

  /** What synchronising leaves: the target's entry where it is close enough, else the source's. */
  ghost function Synchronised(source: Listing, target: Listing, options: Options): Listing {
    map p | p in source.Keys + (if options.delete then {} else target.Keys) ::
      if p in source && !(p in target && !NeedsSync(source[p], target[p], options)) then source[p] else target[p]
  }

  predicate Touches(changes: seq<Change>, p: Path) {
    exists c <- changes :: c.path == p
  }

  /** With each path at most once, patching sets exactly what the changes say. */
  lemma {:induction false} PatchMeaning(listing: Listing, changes: seq<Change>, p: Path)
    requires forall i, j :: 0 <= i < j < |changes| ==> changes[i].path != changes[j].path
    ensures !Touches(changes, p) ==> (p in Patch(listing, changes) <==> p in listing)
    ensures !Touches(changes, p) && p in listing ==> Patch(listing, changes)[p] == listing[p]
    ensures forall c :: c in changes && c.path == p ==>
              if c.Delete? then p !in Patch(listing, changes)
              else p in Patch(listing, changes) && Patch(listing, changes)[p] == c.source
  {
    if changes != [] {
      var before, last := changes[..|changes| - 1], changes[|changes| - 1];
      assert Patch(listing, changes) == ApplyChange(Patch(listing, before), last);
      PatchMeaning(listing, before, p);
      hide Patch;
      assert changes == before + [last];
      assert Touches(changes, p) <==> Touches(before, p) || last.path == p;
      forall c | c in changes && c.path == p
        ensures c == last || (c in before && last.path != p)
      {
        var i :| 0 <= i < |changes| && changes[i] == c;
      }
    }
  }

  /** Any list of the wanted changes, in any order, turns the target into the same listing. */
  lemma PatchSynchronises(source: Listing, target: Listing, options: Options, changes: seq<Change>)
    requires IsDiff(changes, source, target, options)
    ensures Patch(target, changes) == Synchronised(source, target, options)
  {
    var patched, wanted := Patch(target, changes), Synchronised(source, target, options);
    forall p
      ensures p in patched <==> p in wanted
      ensures p in patched ==> patched[p] == wanted[p]
    {
      PatchMeaning(target, changes, p);
      if p in source && p !in target {
        assert Create(p, source[p]) in changes;
      } else if p in source && NeedsSync(source[p], target[p], options) {
        assert Modify(p, source[p], target[p]) in changes;
      } else if p !in source && p in target && options.delete {
        assert Delete(p, target[p]) in changes;
      } else {
        assert !Touches(changes, p);
      }
    }
  }

  /** The two files agree in what the options compare. */
  predicate Agree(a: FileMetadata, b: FileMetadata, options: Options) {
    if options.checksum then a.checksum == b.checksum
    else
      && a.size == b.size
      && -1_000_000_000 <= a.modTime - b.modTime <= 1_000_000_000
      && (options.preservePerms ==> a.mode == b.mode)
  }

  /**
   * After a round every file of the source is in the target and agrees with it; it is the source's own entry unless the
   * target had one that agreed already.
   */
  lemma RoundLeavesAgreement(source: Listing, target: Listing, options: Options, changes: seq<Change>, p: Path)
    requires IsDiff(changes, source, target, options) && p in source
    ensures var t := Patch(target, changes);
            && p in t && Agree(source[p], t[p], options)
            && t[p] == if p in target && Agree(source[p], target[p], options) then target[p] else source[p]
  {
    PatchSynchronises(source, target, options, changes);
  }

  /** A path is listed exactly when the target lacks it, the two disagree, or the source lacks it and deletion is on. */
  lemma ListedMeaning(source: Listing, target: Listing, options: Options, changes: seq<Change>, p: Path)
    requires IsDiff(changes, source, target, options)
    ensures Touches(changes, p) <==>
            || (p in source && p !in target)
            || (p in source && p in target && !Agree(source[p], target[p], options))
            || (options.delete && p !in source && p in target)
  {
    if p in source && p !in target {
      assert Create(p, source[p]) in changes;
    } else if p in source && !Agree(source[p], target[p], options) {
      assert Modify(p, source[p], target[p]) in changes;
    } else if options.delete && p !in source && p in target {
      assert Delete(p, target[p]) in changes;
    }
  }

  /**
   * One round of synchronising converges: whatever list is applied, and in whatever order, the next diff is empty.
   * With deletion the target then has exactly the source's paths; without it no target-only path has changed.
   */
  lemma DiffConverges(source: Listing, target: Listing, options: Options, changes: seq<Change>, shuffled: seq<Change>,
                      again: seq<Change>)
    requires IsDiff(changes, source, target, options) && multiset(shuffled) == multiset(changes)
    requires IsDiff(again, source, Patch(target, shuffled), options)
    ensures again == []
    ensures options.delete ==> Patch(target, shuffled).Keys == source.Keys
    ensures !options.delete ==> forall p :: p in target && p !in source ==>
              p in Patch(target, shuffled) && Patch(target, shuffled)[p] == target[p]
  {
    ShuffleIsDiff(source, target, options, changes, shuffled);
    PatchSynchronises(source, target, options, shuffled);
    if again != [] {
      NothingLeft(source, target, options, again[0]);
    }
  }

  lemma NothingLeft(source: Listing, target: Listing, options: Options, c: Change)
    ensures !Wanted(c, source, Synchronised(source, target, options), options)
  {
  }

  lemma ShuffleIsDiff(source: Listing, target: Listing, options: Options, changes: seq<Change>, shuffled: seq<Change>)
    requires IsDiff(changes, source, target, options) && multiset(shuffled) == multiset(changes)
    ensures IsDiff(shuffled, source, target, options)
  {
    forall c
      ensures c in shuffled <==> c in changes
    {
      assert c in shuffled <==> c in multiset(shuffled);
      assert c in changes <==> c in multiset(changes);
    }
    forall i, j | 0 <= i < j < |shuffled|
      ensures shuffled[i].path != shuffled[j].path
    {
      if shuffled[i].path == shuffled[j].path {
        assert shuffled[i] in changes && shuffled[j] in changes;
        var a :| 0 <= a < |changes| && changes[a] == shuffled[i];
        var b :| 0 <= b < |changes| && changes[b] == shuffled[j];
        assert a == b;
        RepeatedOnce(changes, a);
        RepeatedTwice(shuffled, i, j);
      }
    }
  }

  lemma RepeatedOnce(s: seq<Change>, i: nat)
    requires i < |s| && forall a, b :: 0 <= a < b < |s| ==> s[a].path != s[b].path
    ensures multiset(s)[s[i]] == 1
  {
    assert s == s[..i] + [s[i]] + s[i + 1..];
    assert s[i] !in s[..i] && s[i] !in s[i + 1..];
  }
}
