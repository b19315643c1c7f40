/**
 Folders recreated from browse paths by the OPC-UA server
 (startOpcuaServer, src/OPC-UA-Server/index.js:458-524): a map from path keys to folders beside the folder tree.
 Keys are plain map keys: no group is named like a built-in property of an object.
 */
module FolderIndex {
  import opened Options
  import opened Paths

  /** An empty browse path stands for none. */
  datatype Tag = Tag(group1: string, browsePath: string, address: string, description: string)

  /** A folder without parent lies under ObjectsFolder. */
  datatype Folder = Folder(parent: Option<nat>, name: string)

  datatype Place = Unplaced | Attached(tag: nat) | Objects | InFolder(folder: nat)

  function Split(s: string): (parts: seq<string>)
    ensures |parts| > 0 && forall k :: 0 <= k < |parts| ==> Plain(parts[k])
  {
    if s == "" then [""]
    else
      var rest := Split(s[1..]);
      if s[0] == '/' then [""] + rest else [[s[0]] + rest[0]] + rest[1..]
  }

  function NonEmpty(parts: seq<string>): (segments: seq<string>)
    requires forall k :: 0 <= k < |parts| ==> Plain(parts[k])
    ensures forall k :: 0 <= k < |segments| ==> Plain(segments[k]) && segments[k] != ""
    decreases |parts|
  {
    if parts == [] then []
    else
      var last := parts[|parts| - 1];
      NonEmpty(parts[..|parts| - 1]) + (if last == "" then [] else [last])
  }

  function Segments(t: Tag): (segments: seq<string>)
    ensures forall k :: 0 <= k < |segments| ==> Plain(segments[k]) && segments[k] != ""
  {
    NonEmpty(Split(t.browsePath))
  }

  /** Variable `k` is the one that tag `i` names as its parent. */
  predicate IsParentVariable(tags: seq<Tag>, i: nat, k: nat)
    requires i < |tags| && k < |tags|
  {
    && i != k && tags[k].group1 == tags[i].group1 && tags[k].browsePath != ""
    && "ns=" <= tags[k].address
    && tags[k].browsePath + "/" + tags[k].description == tags[i].browsePath
  }

  predicate HasParentVariable(tags: seq<Tag>, i: nat)
    requires i < |tags|
  {
    exists k: nat :: k < |tags| && IsParentVariable(tags, i, k)
  }

  /** Tags that get a folder. */
  predicate InTree(tags: seq<Tag>, i: nat)
    requires i < |tags|
  {
    tags[i].browsePath != "" && !HasParentVariable(tags, i)
  }

  function Base(useGroup: bool, t: Tag): string {
    if useGroup then t.group1 else ""
  }

  /** The keys of a path and of all its beginnings. */
  function PrefixKeys(useGroup: bool, base: string, segments: seq<string>): set<string>
    decreases |segments|
  {
    (if segments == [] then {} else PrefixKeys(useGroup, base, segments[..|segments| - 1]))
    + (if segments == [] && !useGroup then {} else {Extend(base, segments)})
  }

  lemma {:induction false} PrefixKeysIff(useGroup: bool, base: string, segments: seq<string>, key: string)
    ensures key in PrefixKeys(useGroup, base, segments)
            <==> exists m :: (if useGroup then 0 else 1) <= m <= |segments| && key == Extend(base, segments[..m])
    decreases |segments|
  {
    assert segments[..|segments|] == segments;
    if segments != [] {
      var front := segments[..|segments| - 1];
      PrefixKeysIff(useGroup, base, front, key);
      assert forall m :: 0 <= m <= |front| ==> front[..m] == segments[..m];
    }
  }

  lemma {:induction false} PrefixKeysStep(useGroup: bool, base: string, segments: seq<string>, name: string)
    ensures PrefixKeys(useGroup, base, segments + [name])
            == PrefixKeys(useGroup, base, segments) + {Extend(base, segments + [name])}
  {
    assert (segments + [name])[..|segments|] == segments;
  }

  function TagKeys(useGroup: bool, tags: seq<Tag>, i: nat): set<string>
    requires i < |tags|
  {
    if InTree(tags, i) then PrefixKeys(useGroup, Base(useGroup, tags[i]), Segments(tags[i])) else {}
  }

  /** The keys needed by the first `n` tags. */
  function NeededKeys(useGroup: bool, tags: seq<Tag>, n: nat): set<string>
    requires n <= |tags|
  {
    if n == 0 then {} else NeededKeys(useGroup, tags, n - 1) + TagKeys(useGroup, tags, n - 1)
  }

  // ---------------------------------------------------------------- the tree

  /** The names from the top of the tree down to a folder. */
  function Names(folders: seq<Folder>, f: nat): (names: seq<string>)
    requires f < |folders|
    ensures |names| > 0
    decreases f
  {
    match folders[f].parent
    case None => [folders[f].name]
    case Some(p) => (if p < f then Names(folders, p) else []) + [folders[f].name]
  }

  function Spell(useGroup: bool, names: seq<string>): string
    requires |names| > 0
  {
    if useGroup then Extend(names[0], names[1..]) else Extend("", names)
  }

  /** The key under which a folder belongs. */
  function KeyOf(useGroup: bool, folders: seq<Folder>, f: nat): string
    requires f < |folders|
  {
    Spell(useGroup, Names(folders, f))
  }

  function FolderKeys(useGroup: bool, folders: seq<Folder>): (keys: seq<string>)
    ensures |keys| == |folders|
  {
    seq(|folders|, f requires 0 <= f < |folders| => KeyOf(useGroup, folders, f))
  }

  predicate Numbers(keys: seq<string>, index: map<string, nat>) {
    && |keys| == |index|
    && (forall f :: 0 <= f < |keys| ==> keys[f] in index && index[keys[f]] == f)
    && (forall key :: key in index ==> index[key] < |keys| && keys[index[key]] == key)
  }

  /** The map and the tree agree: each folder is found under the key its ancestors spell, and under no other. */
  predicate Agree(useGroup: bool, folders: seq<Folder>, index: map<string, nat>) {
    && (forall f :: 0 <= f < |folders| ==> folders[f].parent.None? || folders[f].parent.value < f)
    && Numbers(FolderKeys(useGroup, folders), index)
  }

  predicate PlainNames(folders: seq<Folder>) {
    forall f :: 0 <= f < |folders| ==> Plain(folders[f].name)
  }

  lemma {:induction false} NamesStay(folders: seq<Folder>, extra: Folder, f: nat)
    requires f < |folders|
    ensures Names(folders + [extra], f) == Names(folders, f)
    decreases f
  {
    if folders[f].parent.Some? && folders[f].parent.value < f {
      NamesStay(folders, extra, folders[f].parent.value);
    }
  }

  lemma {:induction false} SpellChild(useGroup: bool, names: seq<string>, name: string)
    requires |names| > 0
    ensures Spell(useGroup, names + [name]) == Spell(useGroup, names) + "/" + name
  {
    var all := names + [name];
    assert all[..|all| - 1] == names && all[1..][..|all| - 2] == names[1..];
  }

  /** The key of a new folder, given its parent. */
  function ChildKey(useGroup: bool, folders: seq<Folder>, parent: Option<nat>, name: string): string
    requires parent.Some? ==> parent.value < |folders|
  {
    match parent
    case None => Spell(useGroup, [name])
    case Some(p) => KeyOf(useGroup, folders, p) + "/" + name
  }

  lemma {:induction false} KeysAfterAdd(useGroup: bool, folders: seq<Folder>, parent: Option<nat>, name: string)
    requires parent.Some? ==> parent.value < |folders|
    ensures FolderKeys(useGroup, folders + [Folder(parent, name)])
            == FolderKeys(useGroup, folders) + [ChildKey(useGroup, folders, parent, name)]
  {
    var added := Folder(parent, name);
    var all, n := folders + [added], |folders|;
    forall f: nat | f < n
      ensures KeyOf(useGroup, all, f) == KeyOf(useGroup, folders, f)
    {
      NamesStay(folders, added, f);
    }
    if parent.Some? {
      SpellChild(useGroup, Names(folders, parent.value), name);
      NamesStay(folders, added, parent.value);
    }
    assert KeyOf(useGroup, all, n) == ChildKey(useGroup, folders, parent, name);
  }

  lemma {:induction false} NumbersAfterAdd(keys: seq<string>, index: map<string, nat>, key: string)
    requires Numbers(keys, index) && key !in index
    ensures Numbers(keys + [key], index[key := |keys|])
  {
    CountAfterAdd(index, key, |keys|);
  }

  lemma {:induction false} AddKeepsAgree(useGroup: bool, folders: seq<Folder>, index: map<string, nat>,
                                         parent: Option<nat>, name: string, key: string)
    requires Agree(useGroup, folders, index) && (parent.Some? ==> parent.value < |folders|)
    requires key == ChildKey(useGroup, folders, parent, name) && key !in index
    ensures Agree(useGroup, folders + [Folder(parent, name)], index[key := |folders|])
  {
    KeysAfterAdd(useGroup, folders, parent, name);
    NumbersAfterAdd(FolderKeys(useGroup, folders), index, key);
  }

  lemma {:induction false} CountAfterAdd(index: map<string, nat>, key: string, n: nat)
    requires key !in index
    ensures |index[key := n]| == |index| + 1
  {
    assert index[key := n].Keys == index.Keys + {key};
  }

  // ---------------------------------------------------------------- the program

  class FolderBuilder {
    const useGroup: bool
    var folders: seq<Folder>
    var browsePathFolders: map<string, nat>

    /** A base folder per group is used unless the connection has exactly one topic. */
    constructor (topics: nat)
      ensures useGroup == (topics != 1) && folders == [] && browsePathFolders == map[]
    {
      useGroup := topics != 1;
      folders, browsePathFolders := [], map[];
    }

    predicate Valid()
      reads this
    {
      Agree(useGroup, folders, browsePathFolders)
    }

    /** The folder under `pathKey`, created below `parent` when there is none. */
    method EnsureFolder(parent: Option<nat>, name: string, pathKey: string) returns (folder: nat)
      requires Valid() && (parent.Some? ==> parent.value < |folders|)
      requires pathKey == ChildKey(useGroup, folders, parent, name)
      modifies this
      ensures Valid() && pathKey in browsePathFolders && browsePathFolders[pathKey] == folder
      ensures Grew(old(browsePathFolders), browsePathFolders, {pathKey})
      ensures PlainNames(old(folders)) && Plain(name) ==> PlainNames(folders)
    {
      if pathKey !in browsePathFolders {
        AddKeepsAgree(useGroup, folders, browsePathFolders, parent, name, pathKey);
        browsePathFolders := browsePathFolders[pathKey := |folders|];
        folders := folders + [Folder(parent, name)];
      }
      folder := browsePathFolders[pathKey];
    }

    method PlaceInTree(t: Tag) returns (place: Place)
      requires Valid()
      modifies this
      ensures Valid()
      ensures Grew(old(browsePathFolders), browsePathFolders, PrefixKeys(useGroup, Base(useGroup, t), Segments(t)))
      ensures TreePlace(useGroup, browsePathFolders, t, place)
      ensures PlainNames(old(folders)) && Plain(t.group1) ==> PlainNames(folders)
    {
      var folder: Option<nat> := None;
      var pathKey := "";
      if useGroup {
        var f := EnsureFolder(folder, t.group1, t.group1);
        folder, pathKey := Some(f), t.group1;
      }
      ghost var grouped := browsePathFolders;
      assert Grew(old(browsePathFolders), grouped, PrefixKeys(useGroup, pathKey, []));
      folder := FollowPath(folder, pathKey, Split(t.browsePath));
      GrewTwice(useGroup, pathKey, Segments(t), old(browsePathFolders), grouped, browsePathFolders);
      place := if folder.Some? then InFolder(folder.value) else Objects;
    }

    method FollowPath(start: Option<nat>, base: string, browsePath: seq<string>) returns (folder: Option<nat>)
      requires Valid() && Reached(useGroup, browsePathFolders, base, [], start) && (!useGroup ==> base == "")
      requires forall k :: 0 <= k < |browsePath| ==> Plain(browsePath[k])
      requires PrefixKeys(useGroup, base, []) <= browsePathFolders.Keys
      modifies this
      ensures Valid()
      ensures Grew(old(browsePathFolders), browsePathFolders, PrefixKeys(useGroup, base, NonEmpty(browsePath)))
      ensures Reached(useGroup, browsePathFolders, base, NonEmpty(browsePath), folder)
      ensures PlainNames(old(folders)) ==> PlainNames(folders)
    {
      folder := start;
      var pathKey := base;
      ghost var parts: seq<string> := [];
      for j := 0 to |browsePath|
        invariant parts == browsePath[..j]
        invariant FollowedTo(parts, base, folder, pathKey, old(browsePathFolders), old(folders))
      {
        folder, pathKey := PassPart(parts, browsePath[j], base, folder, pathKey, old(browsePathFolders), old(folders));
        TakeOneMore(browsePath, j);
        parts := parts + [browsePath[j]];
      }
      assert browsePath[..|browsePath|] == browsePath;
    }

    /** The state after some parts of a split path. */
    ghost predicate FollowedTo(parts: seq<string>, base: string, folder: Option<nat>, pathKey: string,
                               index0: map<string, nat>, folders0: seq<Folder>)
      reads this
    {
      && (forall k :: 0 <= k < |parts| ==> Plain(parts[k]))
      && Valid() && pathKey == Extend(base, NonEmpty(parts)) && (!useGroup ==> base == "")
      && Reached(useGroup, browsePathFolders, base, NonEmpty(parts), folder)
      && Grew(index0, browsePathFolders, PrefixKeys(useGroup, base, NonEmpty(parts)))
      && (PlainNames(folders0) ==> PlainNames(folders))
    }

    /** One more part; an empty one is passed over. */
    method PassPart(ghost parts: seq<string>, part: string, ghost base: string, folder: Option<nat>, pathKey: string,
                    ghost index0: map<string, nat>, ghost folders0: seq<Folder>)
      returns (inner: Option<nat>, innerKey: string)
      requires FollowedTo(parts, base, folder, pathKey, index0, folders0) && Plain(part)
      modifies this
      ensures FollowedTo(parts + [part], base, inner, innerKey, index0, folders0)
    {
      SegmentsOfPath(parts, part);
      inner, innerKey := folder, pathKey;
      if part != "" {
        ghost var before := browsePathFolders;
        inner, innerKey := EnterSegment(folder, part, pathKey, base, NonEmpty(parts));
        GrewStep(useGroup, base, NonEmpty(parts), part, index0, before, browsePathFolders);
      } else {
        assert NonEmpty(parts) + [] == NonEmpty(parts);
      }
    }

    method EnterSegment(folder: Option<nat>, name: string, pathKey: string, ghost base: string,
                        ghost segments: seq<string>)
      returns (inner: Option<nat>, innerKey: string)
      requires Valid() && Reached(useGroup, browsePathFolders, base, segments, folder)
               && pathKey == Extend(base, segments)
      requires !useGroup ==> base == ""
      modifies this
      ensures Valid()
      ensures innerKey == Extend(base, segments + [name])
              && Reached(useGroup, browsePathFolders, base, segments + [name], inner)
      ensures Grew(old(browsePathFolders), browsePathFolders, {innerKey})
      ensures PlainNames(old(folders)) && Plain(name) ==> PlainNames(folders)
    {
      innerKey := pathKey + "/" + name;
      ExtendStep(base, segments, name);
      ReachedKey(useGroup, folders, browsePathFolders, base, segments, folder, name);
      var f := EnsureFolder(folder, name, innerKey);
      inner := Some(f);
    }

    method FindParentVariable(tags: seq<Tag>, i: nat) returns (found: Option<nat>)
      requires i < |tags|
      ensures found.Some? <==> HasParentVariable(tags, i)
      ensures found.Some? ==> found.value < |tags| && IsParentVariable(tags, i, found.value)
                              && forall k: nat :: k < found.value ==> !IsParentVariable(tags, i, k)
    {
      var k := 0;
      while k < |tags|
        invariant k <= |tags| && forall j: nat :: j < k ==> !IsParentVariable(tags, i, j)
      {
        if i != k && tags[k].group1 == tags[i].group1 && tags[k].browsePath != "" && "ns=" <= tags[k].address {
          if tags[k].browsePath + "/" + tags[k].description == tags[i].browsePath {
            found := Some(k);
            assert IsParentVariable(tags, i, k);
            return;
          }
        }
        k := k + 1;
      }
      return None;
    }

    method PlaceTag(tags: seq<Tag>, i: nat) returns (place: Place)
      requires i < |tags| && Valid()
      modifies this
      ensures Valid()
      ensures Grew(old(browsePathFolders), browsePathFolders, TagKeys(useGroup, tags, i))
      ensures Placed(useGroup, browsePathFolders, tags, i, place)
      ensures PlainNames(old(folders)) && Plain(tags[i].group1) ==> PlainNames(folders)
    {
      place := Unplaced;
      if tags[i].browsePath != "" {
        var found := FindParentVariable(tags, i);
        if found.Some? {
          place := Attached(found.value);
        } else {
          place := PlaceInTree(tags[i]);
        }
      }
    }

    method PlaceTags(tags: seq<Tag>) returns (places: seq<Place>)
      requires folders == [] && browsePathFolders == map[]
      modifies this
      ensures |places| == |tags| && Done(useGroup, folders, browsePathFolders, tags, places)
    {
      places := [];
      while |places| < |tags|
        invariant |places| <= |tags| && Done(useGroup, folders, browsePathFolders, tags, places)
        decreases |tags| - |places|
      {
        ghost var before, beforeFolders := browsePathFolders, folders;
        var place := PlaceTag(tags, |places|);
        DoneStep(useGroup, beforeFolders, before, folders, browsePathFolders, tags, places, place);
        places := places + [place];
      }
    }
  }

  predicate PlainGroups(tags: seq<Tag>) {
    forall i :: 0 <= i < |tags| ==> Plain(tags[i].group1)
  }

  lemma {:induction false} TakeOneMore(s: seq<string>, j: nat)
    requires j < |s|
    ensures s[..j] + [s[j]] == s[..j + 1]
  {
  }

  /** Exactly these keys are added. */
  predicate Grew(before: map<string, nat>, after: map<string, nat>, keys: set<string>) {
    Kept(before, after) && after.Keys == before.Keys + keys
  }

  lemma {:induction false} GrewStep(useGroup: bool, base: string, segments: seq<string>, name: string,
                                    a: map<string, nat>, b: map<string, nat>, c: map<string, nat>)
    requires Grew(a, b, PrefixKeys(useGroup, base, segments)) && Grew(b, c, {Extend(base, segments + [name])})
    ensures Grew(a, c, PrefixKeys(useGroup, base, segments + [name]))
  {
    PrefixKeysStep(useGroup, base, segments, name);
  }

  lemma {:induction false} BeginsWithBase(useGroup: bool, base: string, segments: seq<string>)
    ensures PrefixKeys(useGroup, base, []) <= PrefixKeys(useGroup, base, segments)
    decreases |segments|
  {
    if segments != [] {
      BeginsWithBase(useGroup, base, segments[..|segments| - 1]);
    }
  }

  lemma {:induction false} GrewTwice(useGroup: bool, base: string, segments: seq<string>, a: map<string, nat>,
                                     b: map<string, nat>, c: map<string, nat>)
    requires Grew(a, b, PrefixKeys(useGroup, base, [])) && Grew(b, c, PrefixKeys(useGroup, base, segments))
    ensures Grew(a, c, PrefixKeys(useGroup, base, segments))
  {
    BeginsWithBase(useGroup, base, segments);
  }

  /** Folders are never renamed or moved to another key. */
  predicate Kept(before: map<string, nat>, after: map<string, nat>) {
    forall key :: key in before ==> key in after && after[key] == before[key]
  }

  /** `folder` is the one of the path; the empty path is ObjectsFolder unless groups are used. */
  predicate Reached(useGroup: bool, index: map<string, nat>, base: string, segments: seq<string>, folder: Option<nat>) {
    if segments == [] && !useGroup then folder == None
    else Extend(base, segments) in index && folder == Some(index[Extend(base, segments)])
  }

  /** Where a tag of the tree belongs. */
  predicate TreePlace(useGroup: bool, index: map<string, nat>, t: Tag, place: Place) {
    && (place.Objects? || place.InFolder?)
    && Reached(useGroup, index, Base(useGroup, t), Segments(t), if place.InFolder? then Some(place.folder) else None)
  }

  ghost predicate Placed(useGroup: bool, index: map<string, nat>, tags: seq<Tag>, i: nat, place: Place)
    requires i < |tags|
  {
    if tags[i].browsePath == "" then place == Unplaced
    else if HasParentVariable(tags, i)
    then && place.Attached? && place.tag < |tags| && IsParentVariable(tags, i, place.tag)
         && forall k: nat :: k < place.tag ==> !IsParentVariable(tags, i, k)
    else TreePlace(useGroup, index, tags[i], place)
  }

  ghost predicate AllPlaced(useGroup: bool, index: map<string, nat>, tags: seq<Tag>, places: seq<Place>)
    requires |places| <= |tags|
  {
    forall k: nat :: k < |places| ==> Placed(useGroup, index, tags, k, places[k])
  }

  lemma {:induction false} PlacesStay(useGroup: bool, before: map<string, nat>, after: map<string, nat>, tags: seq<Tag>,
                                      places: seq<Place>, place: Place)
    requires |places| < |tags| && Kept(before, after)
    requires AllPlaced(useGroup, before, tags, places) && Placed(useGroup, after, tags, |places|, place)
    ensures AllPlaced(useGroup, after, tags, places + [place])
  {
    forall k: nat | k < |places|
      ensures Placed(useGroup, after, tags, k, places[k])
    {
      assert Placed(useGroup, before, tags, k, places[k]);
    }
  }

  /**
   The state after the tags that have a place: the tree and the map agree, hold what these tags need and
   nothing else, and each tag is where it belongs.
   */
  ghost predicate Done(useGroup: bool, folders: seq<Folder>, index: map<string, nat>, tags: seq<Tag>,
                       places: seq<Place>)
    requires |places| <= |tags|
  {
    && Agree(useGroup, folders, index)
    && index.Keys == NeededKeys(useGroup, tags, |places|)
    && AllPlaced(useGroup, index, tags, places)
    && (PlainGroups(tags) ==> PlainNames(folders))
  }

  lemma {:induction false} DoneStep(useGroup: bool, beforeFolders: seq<Folder>, before: map<string, nat>,
                                    folders: seq<Folder>, index: map<string, nat>,
                                    tags: seq<Tag>, places: seq<Place>, place: Place)
    requires |places| < |tags| && Done(useGroup, beforeFolders, before, tags, places)
    requires Agree(useGroup, folders, index) && Grew(before, index, TagKeys(useGroup, tags, |places|))
    requires Placed(useGroup, index, tags, |places|, place)
    requires PlainNames(beforeFolders) && Plain(tags[|places|].group1) ==> PlainNames(folders)
    ensures Done(useGroup, folders, index, tags, places + [place])
  {
    PlacesStay(useGroup, before, index, tags, places, place);
    KeysOneMore(useGroup, before, index, tags, |places|);
  }

  lemma {:induction false} KeysOneMore(useGroup: bool, before: map<string, nat>, index: map<string, nat>,
                                       tags: seq<Tag>, n: nat)
    requires n < |tags| && before.Keys == NeededKeys(useGroup, tags, n)
             && Grew(before, index, TagKeys(useGroup, tags, n))
    ensures index.Keys == NeededKeys(useGroup, tags, n + 1)
  {
  }

  /** The key of the next folder is the path so far and its name. */
  lemma {:induction false} ReachedKey(useGroup: bool, folders: seq<Folder>, index: map<string, nat>, base: string,
                                      segments: seq<string>, folder: Option<nat>, name: string)
    requires Agree(useGroup, folders, index) && Reached(useGroup, index, base, segments, folder)
             && (!useGroup ==> base == "")
    ensures folder.Some? ==> folder.value < |folders|
    ensures ChildKey(useGroup, folders, folder, name) == Extend(base, segments) + "/" + name
  {
    if folder.Some? {
      assert FolderKeys(useGroup, folders)[folder.value] == Extend(base, segments);
    } else {
      ExtendStep("", [], name);
      assert [] + [name] == [name];
    }
  }

  // ---------------------------------------------------------------- what the folders mean

  function Joined(parts: seq<string>): string
    requires |parts| > 0
    decreases |parts|
  {
    if |parts| == 1 then parts[0] else parts[0] + "/" + Joined(parts[1..])
  }

  /** Splitting loses nothing. */
  lemma {:induction false} SplitRejoins(s: string)
    ensures Joined(Split(s)) == s
  {
    if s != "" {
      SplitRejoins(s[1..]);
      var rest := Split(s[1..]);
      if s[0] == '/' {
        assert ([""] + rest)[1..] == rest;
        assert s == "/" + s[1..];
      } else {
        var parts := [[s[0]] + rest[0]] + rest[1..];
        assert parts[1..] == rest[1..];
        assert s == [s[0]] + s[1..];
      }
    }
  }

  predicate IsPrefixKey(useGroup: bool, t: Tag, key: string) {
    exists m :: (if useGroup then 0 else 1) <= m <= |Segments(t)| && key == Extend(Base(useGroup, t), Segments(t)[..m])
  }

  /** Tag `i` has a place in the tree, and its path or a beginning of it has this key. */
  predicate Needs(useGroup: bool, tags: seq<Tag>, i: nat, key: string)
    requires i < |tags|
  {
    InTree(tags, i) && IsPrefixKey(useGroup, tags[i], key)
  }

  lemma {:induction false} TagKeysIff(useGroup: bool, tags: seq<Tag>, i: nat, key: string)
    requires i < |tags|
    ensures key in TagKeys(useGroup, tags, i) <==> Needs(useGroup, tags, i, key)
  {
    PrefixKeysIff(useGroup, Base(useGroup, tags[i]), Segments(tags[i]), key);
  }

  lemma {:induction false} NeededKeysStep(useGroup: bool, tags: seq<Tag>, n: nat, key: string)
    requires 0 < n <= |tags|
    ensures key in NeededKeys(useGroup, tags, n)
            <==> key in NeededKeys(useGroup, tags, n - 1) || Needs(useGroup, tags, n - 1, key)
  {
    TagKeysIff(useGroup, tags, n - 1, key);
  }

  lemma {:induction false} NeededKeyHasTag(useGroup: bool, tags: seq<Tag>, n: nat, key: string) returns (i: nat)
    requires n <= |tags| && key in NeededKeys(useGroup, tags, n)
    ensures i < n && Needs(useGroup, tags, i, key)
    decreases n
  {
    NeededKeysStep(useGroup, tags, n, key);
    if key in NeededKeys(useGroup, tags, n - 1) {
      i := NeededKeyHasTag(useGroup, tags, n - 1, key);
    } else {
      i := n - 1;
    }
  }

  lemma {:induction false} TagNeedsItsKeys(useGroup: bool, tags: seq<Tag>, n: nat, i: nat, key: string)
    requires i < n <= |tags| && Needs(useGroup, tags, i, key)
    ensures key in NeededKeys(useGroup, tags, n)
    decreases n
  {
    NeededKeysStep(useGroup, tags, n, key);
    if i < n - 1 {
      TagNeedsItsKeys(useGroup, tags, n - 1, i, key);
    }
  }

  /** The map has a key for each beginning of each path in the tree, and no other. */
  lemma {:induction false} NeededKeysIff(useGroup: bool, tags: seq<Tag>, n: nat, key: string)
    requires n <= |tags|
    ensures key in NeededKeys(useGroup, tags, n) <==> exists i: nat :: i < n && Needs(useGroup, tags, i, key)
  {
    if key in NeededKeys(useGroup, tags, n) {
      var i := NeededKeyHasTag(useGroup, tags, n, key);
    }
    if i: nat :| i < n && Needs(useGroup, tags, i, key) {
      TagNeedsItsKeys(useGroup, tags, n, i, key);
    }
  }

  /** One folder exists per key. */
  lemma {:induction false} OneFolderPerKey(useGroup: bool, folders: seq<Folder>, index: map<string, nat>,
                                           tags: seq<Tag>)
    requires Agree(useGroup, folders, index) && index.Keys == NeededKeys(useGroup, tags, |tags|)
    ensures |folders| == |NeededKeys(useGroup, tags, |tags|)|
  {
    assert |index| == |index.Keys|;
  }

  lemma {:induction false} NamesArePlain(folders: seq<Folder>, f: nat)
    requires f < |folders| && PlainNames(folders)
    ensures forall x :: x in Names(folders, f) ==> Plain(x)
    decreases f
  {
    if folders[f].parent.Some? && folders[f].parent.value < f {
      NamesArePlain(folders, folders[f].parent.value);
    }
  }

  /**
   When groups hold no slash, the names above a tag are its group, if groups are used, and the non-empty
   segments of its path.
   */
  lemma {:induction false} FolderSpellsPath(useGroup: bool, folders: seq<Folder>, index: map<string, nat>, t: Tag,
                                            f: nat)
    requires Agree(useGroup, folders, index) && PlainNames(folders) && Plain(t.group1)
    requires TreePlace(useGroup, index, t, InFolder(f))
    ensures f < |folders| && Names(folders, f) == (if useGroup then [t.group1] else []) + Segments(t)
  {
    var names := Names(folders, f);
    assert FolderKeys(useGroup, folders)[f] == Extend(Base(useGroup, t), Segments(t));
    NamesArePlain(folders, f);
    if useGroup {
      ExtendInjective(names[0], names[1..], t.group1, Segments(t));
      assert names == [names[0]] + names[1..];
    } else {
      ExtendInjective("", names, "", Segments(t));
    }
  }

  /** Two tags of the tree share a folder exactly when their keys are the same. */
  lemma {:induction false} SameFolderIff(useGroup: bool, folders: seq<Folder>, index: map<string, nat>, a: Tag, b: Tag,
                                         p: Place, q: Place)
    requires Agree(useGroup, folders, index) && TreePlace(useGroup, index, a, p) && TreePlace(useGroup, index, b, q)
    ensures p == q <==> (useGroup || (Segments(a) == [] <==> Segments(b) == []))
                        && Extend(Base(useGroup, a), Segments(a)) == Extend(Base(useGroup, b), Segments(b))
  {
    if p.InFolder? && q.InFolder? && p == q {
      assert FolderKeys(useGroup, folders)[p.folder] == Extend(Base(useGroup, a), Segments(a));
      assert FolderKeys(useGroup, folders)[p.folder] == Extend(Base(useGroup, b), Segments(b));
    }
  }

  // ---------------------------------------------------------------- groups that meet

  function Key(t: Tag): string {
    Extend(t.group1, Segments(t))
  }

  /** The group of `a` is that of `b` extended by the first `m` segments of `b`, and `a` has the rest of them. */
  predicate ShiftedBy(a: Tag, b: Tag, m: nat) {
    1 <= m <= |Segments(b)| && a.group1 == Extend(b.group1, Segments(b)[..m]) && Segments(a) == Segments(b)[m..]
  }

  ghost predicate Shifted(a: Tag, b: Tag) {
    exists m :: ShiftedBy(a, b, m)
  }

  /**
   Whatever the groups hold, keys are equal exactly for the same group and segments, or when one tag is a shift
   of the other.
   */
  lemma {:induction false} SameKeyIff(a: Tag, b: Tag)
    ensures Key(a) == Key(b) <==> (a.group1 == b.group1 && Segments(a) == Segments(b)) || Shifted(a, b) || Shifted(b, a)
  {
    if |Segments(a)| <= |Segments(b)| {
      ShorterKeyIff(a, b);
    } else {
      ShorterKeyIff(b, a);
    }
  }

  lemma {:induction false} ShorterKeyIff(a: Tag, b: Tag)
    requires |Segments(a)| <= |Segments(b)|
    ensures Key(a) == Key(b) <==> (a.group1 == b.group1 && Segments(a) == Segments(b)) || Shifted(a, b)
    ensures !Shifted(b, a)
  {
    var d := |Segments(b)| - |Segments(a)|;
    ExtendEqualIff(a.group1, Segments(a), b.group1, Segments(b));
    assert Segments(b)[0..] == Segments(b);
    assert forall m :: ShiftedBy(a, b, m) ==> m == d;
    assert d > 0 && Key(a) == Key(b) ==> ShiftedBy(a, b, d);
  }

  /** The exact condition for two tags of the tree to share a folder. */
  lemma {:induction false} TagsMeetIff(folders: seq<Folder>, index: map<string, nat>, a: Tag, b: Tag, p: Place,
                                       q: Place)
    requires Agree(true, folders, index) && TreePlace(true, index, a, p) && TreePlace(true, index, b, q)
    ensures p == q <==> (a.group1 == b.group1 && Segments(a) == Segments(b)) || Shifted(a, b) || Shifted(b, a)
  {
    SameFolderIff(true, folders, index, a, b, p, q);
    SameKeyIff(a, b);
  }

  /** A shift leads to one folder from two groups. */
  lemma {:induction false} SlashInGroupMerges(folders: seq<Folder>, index: map<string, nat>, a: Tag, b: Tag, p: Place,
                                              q: Place)
    requires Agree(true, folders, index) && TreePlace(true, index, a, p) && TreePlace(true, index, b, q)
    ensures Shifted(a, b) ==> p == q && a.group1 != b.group1
  {
    TagsMeetIff(folders, index, a, b, p, q);
    if Shifted(a, b) {
      var m: nat :| ShiftedBy(a, b, m);
      ExtendGrows(b.group1, Segments(b)[..m]);
    }
  }

  /** Group `g` is group `h`, a slash, and non-empty names between single slashes. */
  predicate GroupExtends(g: string, h: string) {
    h + "/" <= g && "" !in Split(g[|h| + 1..])
  }

  lemma {:induction false} ExtendJoined(base: string, parts: seq<string>)
    requires parts != []
    ensures Extend(base, parts) == base + "/" + Joined(parts)
    decreases |parts|
  {
    ExtendStep(base, [], parts[0]);
    assert [] + [parts[0]] == [parts[0]];
    if |parts| == 1 {
      assert parts == [parts[0]];
    } else {
      assert parts == [parts[0]] + parts[1..];
      ExtendTwice(base, [parts[0]], parts[1..]);
      ExtendJoined(base + "/" + parts[0], parts[1..]);
    }
  }

  lemma {:induction false} SameBaseSameSegments(base: string, xs: seq<string>, ys: seq<string>)
    requires (forall x :: x in xs ==> Plain(x)) && (forall y :: y in ys ==> Plain(y)) && |xs| <= |ys|
    ensures Extend(base, xs) == Extend(base, ys) <==> xs == ys
  {
    ExtendEqualIff(base, xs, base, ys);
    ExtendGrows(base, ys[..|ys| - |xs|]);
    assert ys[0..] == ys;
  }

  /** That is, it is `h` extended by non-empty segments. */
  lemma {:induction false} GroupExtendsIff(g: string, h: string, segments: seq<string>)
    requires segments != [] && forall x :: x in segments ==> Plain(x) && x != ""
    ensures g == Extend(h, segments) ==> GroupExtends(g, h) && Split(g[|h| + 1..]) == segments
  {
    if g == Extend(h, segments) {
      ExtendJoined(h, segments);
      var rest := g[|h| + 1..];
      assert rest == Joined(segments);
      SplitRejoins(rest);
      ExtendJoined(h, Split(rest));
      if |segments| <= |Split(rest)| {
        SameBaseSameSegments(h, segments, Split(rest));
      } else {
        SameBaseSameSegments(h, Split(rest), segments);
      }
    }
  }

  lemma {:induction false} NonEmptyAll(parts: seq<string>)
    requires forall k :: 0 <= k < |parts| ==> Plain(parts[k]) && parts[k] != ""
    ensures NonEmpty(parts) == parts
    decreases |parts|
  {
    if parts != [] {
      NonEmptyAll(parts[..|parts| - 1]);
    }
  }

  lemma {:induction false} SlashHasNoSegments()
    ensures NonEmpty(Split("/")) == []
  {
    assert "/"[1..] == "" && Split("") == [""];
    assert Split("/") == ["", ""];
    assert ["", ""][..1] == [""] && [""][..0] == [];
    assert NonEmpty([]) == [];
    assert NonEmpty([""]) == [];
  }

  lemma {:induction false} HomeKey(g: string)
    ensures Key(Tag(g, "/", "", "")) == g
  {
    SlashHasNoSegments();
  }

  lemma {:induction false} OrdinaryKey(h: string, path: string)
    requires "" !in Split(path)
    ensures Key(Tag(h, path, "", "")) == h + "/" + path && path != ""
  {
    NonEmptyAll(Split(path));
    ExtendJoined(h, Split(path));
    SplitRejoins(path);
  }

  /** A tag that lies in the folder of the group itself, and one that reaches this folder from the shorter group. */
  lemma {:induction false} ExtendedGroupIsMet(g: string, h: string)
    requires GroupExtends(g, h)
    ensures Key(Tag(g, "/", "", "")) == Key(Tag(h, g[|h| + 1..], "", "")) && g[|h| + 1..] != ""
  {
    HomeKey(g);
    OrdinaryKey(h, g[|h| + 1..]);
    assert g == h + "/" + g[|h| + 1..];
  }

  /** Tags of these two groups can share a folder. */
  ghost predicate CanMeet(g: string, h: string) {
    exists a: Tag, b: Tag ::
      a.group1 == g && b.group1 == h && a.browsePath != "" && b.browsePath != "" && Key(a) == Key(b)
  }

  lemma {:induction false} ShiftExtendsGroup(a: Tag, b: Tag)
    requires Shifted(a, b)
    ensures GroupExtends(a.group1, b.group1)
  {
    var m: nat :| ShiftedBy(a, b, m);
    var segments := Segments(b)[..m];
    assert forall x :: x in segments ==> x in Segments(b);
    GroupExtendsIff(a.group1, b.group1, segments);
  }

  /** Different groups can share folders exactly when one of them extends the other. */
  lemma {:induction false} GroupsMeetIff(g: string, h: string)
    requires g != h
    ensures CanMeet(g, h) <==> GroupExtends(g, h) || GroupExtends(h, g)
  {
    if GroupExtends(g, h) {
      ExtendedGroupIsMet(g, h);
    }
    if GroupExtends(h, g) {
      ExtendedGroupIsMet(h, g);
    }
    forall a: Tag, b: Tag | a.group1 == g && b.group1 == h && Key(a) == Key(b)
      ensures GroupExtends(g, h) || GroupExtends(h, g)
    {
      SameKeyIff(a, b);
      if Shifted(a, b) {
        ShiftExtendsGroup(a, b);
      } else {
        ShiftExtendsGroup(b, a);
      }
    }
  }

  /** For example, the groups A and A/B. */
  lemma {:induction false} GroupsMeetExample()
    ensures GroupExtends("A/B", "A") && Key(Tag("A/B", "/", "", "")) == Key(Tag("A", "B", "", ""))
  {
    ExtendStep("A", [], "B");
    assert [] + ["B"] == ["B"] && Extend("A", []) + "/" + "B" == "A/B";
    GroupExtendsIff("A/B", "A", ["B"]);
    assert "A/B"[2..] == "B";
    ExtendedGroupIsMet("A/B", "A");
  }

  /** A group without a slash extends no other. */
  lemma {:induction false} PlainGroupExtendsNone(g: string, h: string)
    requires Plain(g)
    ensures !GroupExtends(g, h)
  {
    ExtendingNeedsSlash(g, h);
  }

  lemma {:induction false} ExtendingNeedsSlash(g: string, h: string)
    ensures GroupExtends(g, h) ==> !Plain(g)
  {
    assert h + "/" <= g ==> g[|h|] == '/';
  }

  /**
   When neither group extends the other, two tags share a folder exactly when group, if used, and non-empty
   segments are the same.
   */
  lemma {:induction false} ShareFolderIff(useGroup: bool, folders: seq<Folder>, index: map<string, nat>, a: Tag, b: Tag,
                                          p: Place, q: Place)
    requires Agree(useGroup, folders, index) && TreePlace(useGroup, index, a, p) && TreePlace(useGroup, index, b, q)
    requires useGroup ==> !GroupExtends(a.group1, b.group1) && !GroupExtends(b.group1, a.group1)
    ensures p == q <==> (useGroup ==> a.group1 == b.group1) && Segments(a) == Segments(b)
  {
    SameFolderIff(useGroup, folders, index, a, b, p, q);
    if useGroup {
      SameKeyIff(a, b);
      if Shifted(a, b) {
        ShiftExtendsGroup(a, b);
      }
      if Shifted(b, a) {
        ShiftExtendsGroup(b, a);
      }
    } else if |Segments(a)| <= |Segments(b)| {
      SameBaseSameSegments("", Segments(a), Segments(b));
    } else {
      SameBaseSameSegments("", Segments(b), Segments(a));
    }
  }

  // ---------------------------------------------------------------- variables below variables

  /**
   Of two tags, the second is attached to the first exactly when the first is a variable of the same group
   whose path and description spell the path of the second.
   */
  lemma {:induction false} AttachedIff(a: Tag, b: Tag)
    ensures HasParentVariable([a, b], 1)
            <==> && a.group1 == b.group1 && a.browsePath != "" && |a.address| >= 3 && a.address[..3] == "ns="
                 && b.browsePath == a.browsePath + "/" + a.description
  {
    assert "ns=" <= a.address <==> |a.address| >= 3 && a.address[..3] == "ns=";
    assert [a, b][0] == a && [a, b][1] == b;
    if IsParentVariable([a, b], 1, 0) {
      assert HasParentVariable([a, b], 1);
    }
  }

  /** The segments of a path are its parts between slashes, without the empty ones, in order. */
  lemma {:induction false} SegmentsOfPath(parts: seq<string>, name: string)
    requires (forall k :: 0 <= k < |parts| ==> Plain(parts[k])) && Plain(name)
    ensures NonEmpty([]) == [] && NonEmpty(parts + [name]) == NonEmpty(parts) + (if name == "" then [] else [name])
  {
    assert (parts + [name])[..|parts|] == parts;
  }
}
