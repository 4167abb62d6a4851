/**
 * `SimpleFolderIcon.Editor.IconDictionaryCreator`: choosing the icons
 * directory among three candidates with a cached index, deciding whether an
 * asset change touches it, and rebuilding the folder-name to icon dictionary
 * from the directory's `.png` files and `FolderIconScrObj` assets.
 *
 * The file system is an input: `present[i]` is whether the directory of
 * candidate `i` exists, `listings[i]` what it holds, and each changed asset
 * is given by its `Path.GetDirectoryName`.
 */
module FolderIcons {
  import opened Common
  import opened Dict

  /** The candidate icon directories, tried in this order. */
  const PossiblePaths: seq<string> := [
    "Assets/SimpleFolderIcon/Icons",
    "Assets/Plugins/SimpleFolderIcon/Icons",
    "Assets/Resources/SimpleFolderIcon/Icons"
  ]

  /** A loaded texture: `AssetDatabase.LoadAssetAtPath` may yield none. */
  datatype Texture = NoTexture | Texture(id: nat)

  /** One `*.png` file of the icons directory and the texture it loads as. */
  datatype PngFile = PngFile(name: string, texture: Texture)

  /** One `*.asset` file: not a `FolderIconScrObj`, or one with its icon and folder names. */
  datatype AssetFile =
    | NotFolderIcon
    | FolderIcon(icon: Texture, folderNames: seq<Option<string>>)

  /** What `GetFiles("*.png")` and `GetFiles("*.asset")` list in one directory. */
  datatype Listing = Listing(pngs: seq<PngFile>, assets: seq<AssetFile>)

  /** `ReplaceSeparatorChar`: every backslash becomes a forward slash. */
  function ReplaceSeparatorChar(path: string): (r: string)
    ensures |r| == |path|
    ensures '\\' !in r
    ensures forall i :: 0 <= i < |path| && path[i] != '\\' ==> r[i] == path[i]
    ensures forall i :: 0 <= i < |path| && path[i] == '\\' ==> r[i] == '/'
  {
    seq(|path|, i requires 0 <= i < |path| => if path[i] == '\\' then '/' else path[i])
  }

  /** Normalising twice is normalising once. */
  lemma ReplaceSeparatorCharIdempotent(path: string)
    ensures ReplaceSeparatorChar(ReplaceSeparatorChar(path)) == ReplaceSeparatorChar(path)
  {
  }

  /** A path without backslashes is already normalised. */
  lemma ReplaceSeparatorCharFixes(path: string)
    requires '\\' !in path
    ensures ReplaceSeparatorChar(path) == path
  {
  }

  /** Position of the last `'.'` of `name`. */
  function LastDot(name: string): (r: Option<nat>)
    ensures r.Some? ==> r.value < |name| && name[r.value] == '.' && '.' !in name[r.value + 1..]
    ensures r.None? ==> '.' !in name
  {
    if |name| == 0 then None
    else if name[|name| - 1] == '.' then Some(|name| - 1)
    else
      match LastDot(name[..|name| - 1])
      case None =>
        assert name == name[..|name| - 1] + [name[|name| - 1]];
        None
      case Some(i) =>
        assert name[i + 1..] == name[..|name| - 1][i + 1..] + [name[|name| - 1]];
        Some(i)
  }

  /** `Path.GetFileNameWithoutExtension` of a bare file name: what precedes its last `'.'`. */
  function Stem(name: string): (r: string)
    ensures r <= name
    ensures '.' !in name ==> r == name
    ensures '.' in name ==> |r| < |name| && name[|r|] == '.' && '.' !in name[|r| + 1..]
  {
    match LastDot(name)
    case None => name
    case Some(i) => name[..i]
  }

  /**
   * The index `GetIconsPath` settles on: the cached one if its directory
   * exists, else the first existing candidate, else 0.
   */
  function ChosenIndex(cached: int, present: seq<bool>): (r: nat)
    requires -1 <= cached < |PossiblePaths| && |present| == |PossiblePaths|
    ensures r < |PossiblePaths|
    ensures 0 <= cached && present[cached] ==> r == cached
    ensures !(0 <= cached && present[cached]) && (exists j :: 0 <= j < |present| && present[j]) ==>
      present[r] && forall j :: 0 <= j < r ==> !present[j]
    ensures !(0 <= cached && present[cached]) && (forall j :: 0 <= j < |present| ==> !present[j]) ==>
      r == 0
  {
    if 0 <= cached && present[cached] then cached
    else if present[0] then 0
    else if present[1] then 1
    else if present[2] then 2
    else 0
  }

  /**
   * Whether a change in directory `dirs[i]` concerns icons: with a cached
   * index, the normalised directory is the active path; without one, it is
   * any candidate.
   */
  predicate TouchesIcons(pathIndex: int, dirs: seq<string>)
    requires -1 <= pathIndex < |PossiblePaths|
  {
    if pathIndex >= 0 then
      exists i :: 0 <= i < |dirs| && ReplaceSeparatorChar(dirs[i]) == PossiblePaths[pathIndex]
    else
      exists i, j :: 0 <= i < |dirs| && 0 <= j < |PossiblePaths| && ReplaceSeparatorChar(dirs[i]) == PossiblePaths[j]
  }

  /** The `Add` calls of the `.png` loop: each file's stem with its texture. */
  function PngEntries(pngs: seq<PngFile>): (r: seq<(string, Texture)>)
    ensures |r| == |pngs|
    ensures forall i :: 0 <= i < |pngs| ==> r[i] == (Stem(pngs[i].name), pngs[i].texture)
  {
    seq(|pngs|, i requires 0 <= i < |pngs| => (Stem(pngs[i].name), pngs[i].texture))
  }

  /** No two entries share a key, so no `Add` throws. */
  predicate DistinctKeys(entries: seq<(string, Texture)>)
  {
    forall i, j :: 0 <= i < j < |entries| ==> entries[i].0 != entries[j].0
  }

  /** The `TryAdd` calls for one asset's folder names: the non-null names with its icon, in order. */
  function NameEntries(icon: Texture, names: seq<Option<string>>): seq<(string, Texture)>
  {
    if names == [] then []
    else
      var last := names[|names| - 1];
      NameEntries(icon, names[..|names| - 1]) + (if last.Some? then [(last.value, icon)] else [])
  }

  /** Exactly the non-null folder names are offered, each with the asset's icon. */
  lemma {:induction false} NameEntriesSkipNull(icon: Texture, names: seq<Option<string>>)
    ensures forall e :: e in NameEntries(icon, names) ==> e.1 == icon && Some(e.0) in names
    ensures forall i :: 0 <= i < |names| && names[i].Some? ==> (names[i].value, icon) in NameEntries(icon, names)
  {
    if names != [] {
      var init := names[..|names| - 1];
      NameEntriesSkipNull(icon, init);
      assert names == init + [names[|names| - 1]];
      forall i | 0 <= i < |names| - 1
        ensures names[i] == init[i]
      {
      }
    }
  }

  /** The `TryAdd` calls of the `.asset` loop, in order; assets that are not folder icons add nothing. */
  function FolderEntries(assets: seq<AssetFile>): seq<(string, Texture)>
  {
    if assets == [] then []
    else
      var last := assets[|assets| - 1];
      FolderEntries(assets[..|assets| - 1]) + (if last.FolderIcon? then NameEntries(last.icon, last.folderNames) else [])
  }

  /**
   * The dictionary `BuildDictionary` assigns, when its `.png` stems are
   * distinct: the stems first, then every folder name not yet present.
   */
  function IconsOf(listing: Listing): map<string, Texture>
  {
    FirstWins(FirstWins(map[], PngEntries(listing.pngs)), FolderEntries(listing.assets))
  }

  /** Every `.png` file's stem maps to its own texture: folder names never override one. */
  lemma PngStemsWin(listing: Listing, i: nat)
    requires i < |listing.pngs| && DistinctKeys(PngEntries(listing.pngs))
    ensures Stem(listing.pngs[i].name) in IconsOf(listing)
    ensures IconsOf(listing)[Stem(listing.pngs[i].name)] == listing.pngs[i].texture
  {
    var entries := PngEntries(listing.pngs);
    FirstWinsAt(map[], entries, i);
    FirstWinsKeys(FirstWins(map[], entries), FolderEntries(listing.assets));
  }

  /** The keys of the rebuilt dictionary are the stems plus the non-null folder names, and nothing else. */
  lemma IconsKeys(listing: Listing)
    ensures IconsOf(listing).Keys == Keys(PngEntries(listing.pngs)) + Keys(FolderEntries(listing.assets))
  {
    FirstWinsKeys(map[], PngEntries(listing.pngs));
    FirstWinsKeys(FirstWins(map[], PngEntries(listing.pngs)), FolderEntries(listing.assets));
  }

  /** A folder name that is no stem maps to the icon of the first asset entry naming it. */
  lemma FolderNameFirstWins(listing: Listing, i: nat)
    requires i < |FolderEntries(listing.assets)|
    requires FolderEntries(listing.assets)[i].0 !in Keys(PngEntries(listing.pngs))
    requires forall j :: 0 <= j < i ==> FolderEntries(listing.assets)[j].0 != FolderEntries(listing.assets)[i].0
    ensures FolderEntries(listing.assets)[i].0 in IconsOf(listing)
    ensures IconsOf(listing)[FolderEntries(listing.assets)[i].0] == FolderEntries(listing.assets)[i].1
  {
    FirstWinsKeys(map[], PngEntries(listing.pngs));
    FirstWinsAt(FirstWins(map[], PngEntries(listing.pngs)), FolderEntries(listing.assets), i);
  }

  /**
   * The `.png` loop of `BuildDictionary`, over the stem/texture pairs of the
   * files: `None` where an `Add` meets a key already added and throws.
   */
  method AddEntries(entries: seq<(string, Texture)>) returns (r: Option<map<string, Texture>>)
    ensures r.Some? <==> DistinctKeys(entries)
    ensures r.Some? ==> r.value == FirstWins(map[], entries)
  {
    var dictionary: map<string, Texture> := map[];
    var i := 0;
    while i < |entries|
      invariant 0 <= i <= |entries|
      invariant dictionary == FirstWins(map[], entries[..i])
      invariant forall p, q :: 0 <= p < q < i ==> entries[p].0 != entries[q].0
    {
      var key := entries[i].0;
      if key in dictionary {
        DuplicateKey(entries, i);
        return None;
      }
      FreshKey(entries, i);
      FirstWinsSnoc(map[], entries, i);
      dictionary := dictionary[key := entries[i].1];
      i := i + 1;
    }
    assert entries[..i] == entries;
    assert DistinctKeys(entries);
    return Some(dictionary);
  }

  /** An entry whose key the `.png` pass of the entries before it did not bind repeats no earlier key. */
  lemma FreshKey(entries: seq<(string, Texture)>, n: nat)
    requires n < |entries| && entries[n].0 !in FirstWins(map[], entries[..n])
    ensures forall p :: 0 <= p < n ==> entries[p].0 != entries[n].0
  {
    FirstWinsKeys(map[], entries[..n]);
    forall p | 0 <= p < n
      ensures entries[p].0 != entries[n].0
    {
      assert entries[..n][p].0 in Keys(entries[..n]);
    }
  }

  /** An entry whose key the `.png` pass of the entries before it already bound repeats a key. */
  lemma DuplicateKey(entries: seq<(string, Texture)>, n: nat)
    requires n < |entries| && entries[n].0 in FirstWins(map[], entries[..n])
    ensures !DistinctKeys(entries)
  {
    FirstWinsKeys(map[], entries[..n]);
    var q :| 0 <= q < n && entries[..n][q].0 == entries[n].0;
    assert entries[q].0 == entries[n].0;
  }

  /** The inner loop of the `.asset` pass: `TryAdd` of each non-null folder name with `icon`. */
  method AddNames(dictionary: map<string, Texture>, icon: Texture, names: seq<Option<string>>,
                  ghost base: map<string, Texture>, ghost before: seq<(string, Texture)>)
    returns (r: map<string, Texture>)
    requires dictionary == FirstWins(base, before)
    ensures r == FirstWins(base, before + NameEntries(icon, names))
  {
    r := dictionary;
    var n := 0;
    assert before + NameEntries(icon, names[..0]) == before;
    while n < |names|
      invariant 0 <= n <= |names|
      invariant r == FirstWins(base, before + NameEntries(icon, names[..n]))
    {
      ghost var prefix := before + NameEntries(icon, names[..n]);
      NameEntriesSnoc(icon, names, n, before);
      if names[n].Some? {
        FirstWinsAppend(base, prefix, names[n].value, icon);
        if names[n].value !in r {
          r := r[names[n].value := icon];
        }
      } else {
        assert prefix + [] == prefix;
      }
      n := n + 1;
    }
    assert names[..n] == names;
  }

  /** Offering one more name adds its entry after the earlier ones, unless it is null. */
  lemma NameEntriesSnoc(icon: Texture, names: seq<Option<string>>, n: nat, before: seq<(string, Texture)>)
    requires n < |names|
    ensures before + NameEntries(icon, names[..n + 1]) ==
      (before + NameEntries(icon, names[..n])) + (if names[n].Some? then [(names[n].value, icon)] else [])
  {
    assert names[..n + 1][..n] == names[..n];
  }

  /** The `.asset` loop of `BuildDictionary`, starting from the dictionary of the `.png` pass. */
  method AddFolderIcons(base: map<string, Texture>, assets: seq<AssetFile>) returns (r: map<string, Texture>)
    ensures r == FirstWins(base, FolderEntries(assets))
  {
    r := base;
    var a := 0;
    while a < |assets|
      invariant 0 <= a <= |assets|
      invariant r == FirstWins(base, FolderEntries(assets[..a]))
    {
      var asset := assets[a];
      assert assets[..a + 1][..a] == assets[..a];
      assert FolderEntries(assets[..a + 1]) ==
        FolderEntries(assets[..a]) + (if asset.FolderIcon? then NameEntries(asset.icon, asset.folderNames) else []);
      if asset.FolderIcon? {
        r := AddNames(r, asset.icon, asset.folderNames, base, FolderEntries(assets[..a]));
      } else {
        assert FolderEntries(assets[..a + 1]) == FolderEntries(assets[..a]);
      }
      a := a + 1;
    }
    assert assets[..a] == assets;
  }

  /** The static state of `IconDictionaryCreator`. */
  class IconDictionaryCreator {
    /** `_pathIndex`: -1 until a directory was chosen. */
    var pathIndex: int
    /** `IconDictionary`; `None` until it is first built. */
    var iconDictionary: Option<map<string, Texture>>

    ghost predicate Valid()
      reads this
    {
      -1 <= pathIndex < |PossiblePaths|
    }

    /** The static initialisers. */
    constructor ()
      ensures Valid() && pathIndex == -1 && iconDictionary.None?
    {
      pathIndex := -1;
      iconDictionary := None;
    }

    /** `GetIconsPath`: the chosen candidate, whose index is now cached. */
    method GetIconsPath(present: seq<bool>) returns (path: string)
      requires Valid() && |present| == |PossiblePaths|
      modifies this`pathIndex
      ensures Valid() && 0 <= pathIndex
      ensures pathIndex == ChosenIndex(old(pathIndex), present)
      ensures path == PossiblePaths[pathIndex]
    {
      if pathIndex >= 0 {
        if present[pathIndex] {
          return PossiblePaths[pathIndex];
        }
      }
      var i := 0;
      while i < |PossiblePaths|
        invariant 0 <= i <= |PossiblePaths|
        invariant forall j :: 0 <= j < i ==> !present[j]
        invariant pathIndex == old(pathIndex)
      {
        if !present[i] {
          i := i + 1;
          continue;
        }
        pathIndex := i;
        return PossiblePaths[i];
      }
      pathIndex := 0;
      return PossiblePaths[0];
    }

    /** `ContainsIconAsset`, given the directory of each changed asset. */
    method ContainsIconAsset(dirs: seq<string>) returns (r: bool)
      requires Valid()
      ensures r <==> TouchesIcons(pathIndex, dirs)
    {
      if pathIndex >= 0 {
        var activePath := PossiblePaths[pathIndex];
        var k := 0;
        while k < |dirs|
          invariant 0 <= k <= |dirs|
          invariant forall i :: 0 <= i < k ==> ReplaceSeparatorChar(dirs[i]) != activePath
        {
          var dir := ReplaceSeparatorChar(dirs[k]);
          if dir == activePath {
            return true;
          }
          k := k + 1;
        }
        return false;
      }
      var k := 0;
      while k < |dirs|
        invariant 0 <= k <= |dirs|
        invariant forall i, j :: 0 <= i < k && 0 <= j < |PossiblePaths| ==> ReplaceSeparatorChar(dirs[i]) != PossiblePaths[j]
      {
        var dir := ReplaceSeparatorChar(dirs[k]);
        var p := 0;
        while p < |PossiblePaths|
          invariant 0 <= p <= |PossiblePaths|
          invariant forall j :: 0 <= j < p ==> dir != PossiblePaths[j]
        {
          if dir == PossiblePaths[p] {
            return true;
          }
          p := p + 1;
        }
        k := k + 1;
      }
      return false;
    }

    /**
     * `BuildDictionary`. `ok` is false where the engine throws: the chosen
     * directory does not exist (`GetFiles`), or two `.png` files share a
     * stem (`Add`); `IconDictionary` is then left as it was.
     */
    method BuildDictionary(present: seq<bool>, listings: seq<Listing>) returns (ok: bool)
      requires Valid() && |present| == |PossiblePaths| && |listings| == |PossiblePaths|
      modifies this
      ensures Valid() && pathIndex == ChosenIndex(old(pathIndex), present)
      ensures ok <==> present[pathIndex] && DistinctKeys(PngEntries(listings[pathIndex].pngs))
      ensures ok ==> iconDictionary == Some(IconsOf(listings[pathIndex]))
      ensures !ok ==> iconDictionary == old(iconDictionary)
    {
      var _ := GetIconsPath(present);
      if !present[pathIndex] {
        return false;
      }
      var listing := listings[pathIndex];
      var pngDictionary := AddEntries(PngEntries(listing.pngs));
      if pngDictionary.None? {
        return false;
      }
      var dictionary := AddFolderIcons(pngDictionary.value, listing.assets);
      iconDictionary := Some(dictionary);
      return true;
    }

    /**
     * `OnPostprocessAllAssets`, given the directories of the imported,
     * deleted, moved and moved-from assets: rebuilds exactly when one of the
     * four lists touches the icons.
     */
    method OnPostprocessAllAssets(imported: seq<string>, deleted: seq<string>, moved: seq<string>, movedFrom: seq<string>,
                                  present: seq<bool>, listings: seq<Listing>)
      requires Valid() && |present| == |PossiblePaths| && |listings| == |PossiblePaths|
      modifies this
      ensures Valid()
      ensures var touched := TouchesIcons(old(pathIndex), imported) || TouchesIcons(old(pathIndex), deleted)
                          || TouchesIcons(old(pathIndex), moved) || TouchesIcons(old(pathIndex), movedFrom);
        && (!touched ==> pathIndex == old(pathIndex) && iconDictionary == old(iconDictionary))
        && (touched ==> pathIndex == ChosenIndex(old(pathIndex), present))
        && (touched && present[pathIndex] && DistinctKeys(PngEntries(listings[pathIndex].pngs)) ==>
              iconDictionary == Some(IconsOf(listings[pathIndex])))
        && (touched && !(present[pathIndex] && DistinctKeys(PngEntries(listings[pathIndex].pngs))) ==>
              iconDictionary == old(iconDictionary))
    {
      var inImported := ContainsIconAsset(imported);
      var inDeleted := ContainsIconAsset(deleted);
      var inMoved := ContainsIconAsset(moved);
      var inMovedFrom := ContainsIconAsset(movedFrom);
      if !inImported && !inDeleted && !inMoved && !inMovedFrom {
        return;
      }
      var _ := BuildDictionary(present, listings);
    }
  }
}
