/**
 * The localisation update script: CSV rows become property entries, entries
 * are grouped per properties file into the values to set and the keys to
 * delete, and each file's existing key/value map is merged with its group
 * (or, in overwrite mode, replaced by the values to set).
 *
 * A properties file is a map from key to value; the repository is a map from
 * relative path to properties file, with a missing file absent from it. A CSV
 * cell that is not there is None, as in the script.
 */
module PropUpdate {
  import opened Wrappers

  /** A CSV cell, or None when the row has no such column. */
  type Cell = Option<string>

  /** The key/value pairs of one properties file. */
  type Props = map<Cell, Cell>

  /** One row's worth of property update. */
  datatype PropEntry = PropEntry(relPath: Cell, key: Cell, value: Cell, shouldDelete: bool)

  /** One file's group: the values to set and the keys to delete, in order. */
  datatype FileChanges = FileChanges(updates: Props, deletes: seq<Cell>)

  // ---------------------------------------------------------------------
  // Rows to entries

  /** Whether `num` is a valid non-negative index below `maxExclusive`. */
  function IdxBounded(num: int, maxExclusive: int): (r: bool)
    ensures r <==> 0 <= num < maxExclusive
  {
    0 <= num < maxExclusive
  }

  /** The cell at `idx`, or None when the index is out of range. */
  function Field(row: seq<string>, idx: int): (r: Cell)
    ensures r.Some? <==> 0 <= idx < |row|
    ensures r.Some? ==> r.value == row[idx]
  {
    if IdxBounded(idx, |row|) then Some(row[idx]) else None
  }

  /**
   * One row as an entry: each column read only when in range, the path
   * passed through the converter when there is one, and should-delete
   * false unless a converter decides it.
   */
  function GetPropEntry(row: seq<string>, pathIdx: int, keyIdx: int, valueIdx: int,
                        shouldDeleteConverter: Option<seq<string> -> bool>,
                        pathConverter: Option<Cell -> Cell>): (r: PropEntry)
    ensures pathConverter.None? ==> r.relPath == Field(row, pathIdx)
    ensures pathConverter.Some? ==> r.relPath == pathConverter.value(Field(row, pathIdx))
    ensures r.key.Some? <==> 0 <= keyIdx < |row|
    ensures r.key.Some? ==> r.key.value == row[keyIdx]
    ensures r.value.Some? <==> 0 <= valueIdx < |row|
    ensures r.value.Some? ==> r.value.value == row[valueIdx]
    ensures shouldDeleteConverter.None? ==> !r.shouldDelete
    ensures shouldDeleteConverter.Some? ==> r.shouldDelete == shouldDeleteConverter.value(row)
  {
    var path := Field(row, pathIdx);
    var path' := if pathConverter.Some? then pathConverter.value(path) else path;
    var key := Field(row, keyIdx);
    var value := Field(row, valueIdx);
    var shouldDelete := if shouldDeleteConverter.None? then false else shouldDeleteConverter.value(row);
    PropEntry(path', key, value, shouldDelete)
  }

  /** Every row as an entry, in order. */
  function GetPropEntries(rows: seq<seq<string>>, pathIdx: int, keyIdx: int, valueIdx: int,
                          shouldDeleteConverter: Option<seq<string> -> bool>,
                          pathConverter: Option<Cell -> Cell>): (r: seq<PropEntry>)
    ensures |r| == |rows|
    ensures forall i :: 0 <= i < |rows| ==>
      r[i] == GetPropEntry(rows[i], pathIdx, keyIdx, valueIdx, shouldDeleteConverter, pathConverter)
  {
    if rows == [] then []
    else [GetPropEntry(rows[0], pathIdx, keyIdx, valueIdx, shouldDeleteConverter, pathConverter)]
         + GetPropEntries(rows[1..], pathIdx, keyIdx, valueIdx, shouldDeleteConverter, pathConverter)
  }

  /** Python's `str.isspace` characters, which `str.strip()` removes. */
  predicate PyWhitespace(ch: char)
  {
    || ch == ' ' || ('\t' <= ch <= '\r') || ('\U{001C}' <= ch <= '\U{001F}')
    || ch == '\U{0085}' || ch == '\U{00A0}' || ch == '\U{1680}'
    || ('\U{2000}' <= ch <= '\U{200A}') || ch == '\U{2028}' || ch == '\U{2029}'
    || ch == '\U{202F}' || ch == '\U{205F}' || ch == '\U{3000}'
  }

  function LStrip(s: string): string
  {
    if s != [] && PyWhitespace(s[0]) then LStrip(s[1..]) else s
  }

  function RStrip(s: string): string
  {
    if s != [] && PyWhitespace(s[|s| - 1]) then RStrip(s[..|s| - 1]) else s
  }

  /** `str.strip()`: white space removed from both ends. */
  function Strip(s: string): string
  {
    RStrip(LStrip(s))
  }

  /** True iff `s` holds a character that is not white space. */
  predicate HasContent(s: string)
  {
    exists i :: 0 <= i < |s| && !PyWhitespace(s[i])
  }

  lemma {:induction false} LStripContent(s: string)
    ensures HasContent(LStrip(s)) <==> HasContent(s)
    ensures LStrip(s) != [] ==> !PyWhitespace(LStrip(s)[0])
  {
    if s != [] && PyWhitespace(s[0]) {
      LStripContent(s[1..]);
      if HasContent(s) {
        var i :| 0 <= i < |s| && !PyWhitespace(s[i]);
        assert s[1..][i - 1] == s[i];
      }
      if HasContent(s[1..]) {
        var i :| 0 <= i < |s[1..]| && !PyWhitespace(s[1..][i]);
        assert s[i + 1] == s[1..][i];
      }
    } else if s != [] {
      assert !PyWhitespace(s[0]);
    }
  }

  lemma {:induction false} RStripContent(s: string)
    ensures HasContent(RStrip(s)) <==> HasContent(s)
  {
    if s != [] && PyWhitespace(s[|s| - 1]) {
      var t := s[..|s| - 1];
      RStripContent(t);
      if HasContent(s) {
        var i :| 0 <= i < |s| && !PyWhitespace(s[i]);
        assert i < |s| - 1 && t[i] == s[i];
      }
      if HasContent(t) {
        var i :| 0 <= i < |t| && !PyWhitespace(t[i]);
        assert s[i] == t[i];
      }
    }
  }

  /** A stripped string is non-empty exactly when the string has content. */
  lemma StripNonEmpty(s: string)
    ensures |Strip(s)| > 0 <==> HasContent(s)
  {
    LStripContent(s);
    RStripContent(LStrip(s));
    RStripEnd(LStrip(s));
    if |Strip(s)| > 0 {
      assert !PyWhitespace(Strip(s)[|Strip(s)| - 1]);
    }
  }

  lemma {:induction false} RStripEnd(s: string)
    ensures RStrip(s) != [] ==> !PyWhitespace(RStrip(s)[|RStrip(s)| - 1])
  {
    if s != [] && PyWhitespace(s[|s| - 1]) {
      RStripEnd(s[..|s| - 1]);
    }
  }

  /**
   * Whether a row asks for its key to be deleted: the index is in range and
   * the cell is not empty once stripped, that is, it holds a character that
   * is not white space.
   */
  function GetShouldDeleted(rowItems: seq<string>, requestedIdx: int): (r: bool)
    ensures r <==> 0 <= requestedIdx < |rowItems| && HasContent(rowItems[requestedIdx])
  {
    if IdxBounded(requestedIdx, |rowItems|) then
      StripNonEmpty(rowItems[requestedIdx]);
      |Strip(rowItems[requestedIdx])| > 0
    else false
  }

  // ---------------------------------------------------------------------
  // Grouping entries by file

  /** One entry's effect on the grouping: open its file's group, then record it. */
  function AddEntry(groups: map<Cell, FileChanges>, e: PropEntry): map<Cell, FileChanges>
  {
    var g := if e.relPath in groups then groups[e.relPath] else FileChanges(map[], []);
    var g' := if e.shouldDelete then g.(deletes := g.deletes + [e.key])
              else g.(updates := g.updates[e.key := e.value]);
    groups[e.relPath := g']
  }

  /** The grouping of a sequence of entries, taken in order. */
  function ByFile(entries: seq<PropEntry>): map<Cell, FileChanges>
  {
    if entries == [] then map[]
    else AddEntry(ByFile(entries[..|entries| - 1]), entries[|entries| - 1])
  }

  /** Groups the entries by relative path, as the script's loop does. */
  method GetByFile(entries: seq<PropEntry>) returns (toRet: map<Cell, FileChanges>)
    ensures toRet == ByFile(entries)
  {
    toRet := map[];
    var i := 0;
    while i < |entries|
      invariant 0 <= i <= |entries|
      invariant toRet == ByFile(entries[..i])
    {
      var propEntry := entries[i];
      var relPath := propEntry.relPath;
      if relPath !in toRet {
        toRet := toRet[relPath := FileChanges(map[], [])];
      }
      if propEntry.shouldDelete {
        toRet := toRet[relPath := toRet[relPath].(deletes := toRet[relPath].deletes + [propEntry.key])];
      } else {
        toRet := toRet[relPath := toRet[relPath].(updates := toRet[relPath].updates[propEntry.key := propEntry.value])];
      }
      assert entries[..i + 1][..i] == entries[..i];
      i := i + 1;
    }
    assert entries[..|entries|] == entries;
  }

  /** The keys, in order, that the entries for `path` mark for deletion. */
  function DeletedKeys(entries: seq<PropEntry>, path: Cell): seq<Cell>
  {
    if entries == [] then []
    else (if entries[0].relPath == path && entries[0].shouldDelete then [entries[0].key] else [])
         + DeletedKeys(entries[1..], path)
  }

  /** True iff `e` sets `key` in the file at `path`. */
  predicate SetsKey(e: PropEntry, path: Cell, key: Cell)
  {
    e.relPath == path && !e.shouldDelete && e.key == key
  }

  lemma {:induction false} DeletedKeysSnoc(entries: seq<PropEntry>, e: PropEntry, path: Cell)
    ensures DeletedKeys(entries + [e], path) ==
      DeletedKeys(entries, path) + if e.relPath == path && e.shouldDelete then [e.key] else []
  {
    if entries != [] {
      assert (entries + [e])[1..] == entries[1..] + [e];
      DeletedKeysSnoc(entries[1..], e, path);
    }
  }

  /** Every entry's path becomes a group, and only those paths do. */
  lemma {:induction false} ByFileKeys(entries: seq<PropEntry>)
    ensures ByFile(entries).Keys == set e | e in entries :: e.relPath
  {
    if entries != [] {
      var init := entries[..|entries| - 1];
      ByFileKeys(init);
      assert entries == init + [entries[|entries| - 1]];
    }
  }

  /** A group's delete list is its deleting entries' keys, in input order. */
  lemma {:induction false} ByFileDeletes(entries: seq<PropEntry>, path: Cell)
    requires path in ByFile(entries)
    ensures ByFile(entries)[path].deletes == DeletedKeys(entries, path)
  {
    var init := entries[..|entries| - 1];
    var e := entries[|entries| - 1];
    assert entries == init + [e];
    DeletedKeysSnoc(init, e, path);
    if path in ByFile(init) {
      ByFileDeletes(init, path);
    } else {
      ByFileKeys(init);
      DeletedKeysAbsent(init, path);
    }
  }

  lemma {:induction false} DeletedKeysAbsent(entries: seq<PropEntry>, path: Cell)
    requires forall e :: e in entries ==> e.relPath != path
    ensures DeletedKeys(entries, path) == []
  {
    if entries != [] {
      assert entries[0] in entries;
      DeletedKeysAbsent(entries[1..], path);
    }
  }

  /**
   * A group sets a key exactly when some entry for its path sets it, and the
   * value it holds is the one from the last such entry.
   */
  lemma {:induction false} ByFileUpdates(entries: seq<PropEntry>, path: Cell, key: Cell)
    ensures (path in ByFile(entries) && key in ByFile(entries)[path].updates) <==>
            exists j :: 0 <= j < |entries| && SetsKey(entries[j], path, key)
    ensures path in ByFile(entries) && key in ByFile(entries)[path].updates ==>
            exists j :: && 0 <= j < |entries| && SetsKey(entries[j], path, key)
                        && ByFile(entries)[path].updates[key] == entries[j].value
                        && forall j' :: j < j' < |entries| ==> !SetsKey(entries[j'], path, key)
  {
    if entries != [] {
      var n := |entries| - 1;
      var init := entries[..n];
      var e := entries[n];
      ByFileUpdates(init, path, key);
      assert forall j :: 0 <= j < n ==> entries[j] == init[j];
      if SetsKey(e, path, key) {
        assert ByFile(entries)[path].updates[key] == e.value;
      } else if path in ByFile(entries) && key in ByFile(entries)[path].updates {
        var j :| && 0 <= j < |init| && SetsKey(init[j], path, key)
                 && ByFile(init)[path].updates[key] == init[j].value
                 && forall j' :: j < j' < |init| ==> !SetsKey(init[j'], path, key);
        assert ByFile(entries)[path].updates[key] == entries[j].value;
      }
    }
  }

  // ---------------------------------------------------------------------
  // Merging a group into a file

  /** The file after a merge: the deleted keys removed, then the updates set. */
  function Merged(existing: Props, changes: FileChanges): Props
  {
    (existing - set k | k in changes.deletes) + changes.updates
  }

  /** A missing file is read as an empty one. */
  function Load(repo: map<Cell, Props>, path: Cell): Props
  {
    if path in repo then repo[path] else map[]
  }

  /**
   * The merge loops: delete each listed key that is present, then set every
   * key of the updates.
   */
  method MergeProps(existing: Props, changes: FileChanges) returns (propItems: Props)
    ensures propItems == Merged(existing, changes)
  {
    propItems := existing;
    var i := 0;
    while i < |changes.deletes|
      invariant 0 <= i <= |changes.deletes|
      invariant propItems == existing - set k | k in changes.deletes[..i]
    {
      var keyToDelete := changes.deletes[i];
      if keyToDelete in propItems {
        propItems := propItems - {keyToDelete};
      }
      assert changes.deletes[..i + 1] == changes.deletes[..i] + [keyToDelete];
      i := i + 1;
    }
    assert changes.deletes[..i] == changes.deletes;
    ghost var afterDeletes := propItems;
    var remaining := changes.updates.Keys;
    while remaining != {}
      invariant remaining <= changes.updates.Keys
      invariant propItems == afterDeletes + map k | k in changes.updates.Keys - remaining :: changes.updates[k]
      decreases remaining
    {
      var key :| key in remaining;
      propItems := propItems[key := changes.updates[key]];
      remaining := remaining - {key};
    }
    assert changes.updates == map k | k in changes.updates.Keys - remaining :: changes.updates[k];
  }

  /** Updated keys hold their new values. */
  lemma MergedUpdates(existing: Props, changes: FileChanges, k: Cell)
    requires k in changes.updates
    ensures k in Merged(existing, changes) && Merged(existing, changes)[k] == changes.updates[k]
  {
  }

  /** Keys neither deleted nor updated keep their old values. */
  lemma MergedKeepsOthers(existing: Props, changes: FileChanges, k: Cell)
    requires k in existing && k !in changes.deletes && k !in changes.updates
    ensures k in Merged(existing, changes) && Merged(existing, changes)[k] == existing[k]
  {
  }

  /** A deleted key that is not set again is gone. */
  lemma MergedDeletes(existing: Props, changes: FileChanges, k: Cell)
    requires k in changes.deletes && k !in changes.updates
    ensures k !in Merged(existing, changes)
  {
  }

  /** Deleting keys the file does not hold changes nothing. */
  lemma DeletingAbsentKeysIsNoOp(existing: Props, changes: FileChanges)
    requires forall k :: k in changes.deletes ==> k !in existing
    ensures Merged(existing, changes) == existing + changes.updates
  {
    assert existing - (set k | k in changes.deletes) == existing;
  }

  // ---------------------------------------------------------------------
  // Whole-repository updates

  /** The repository after the update run: every grouped file merged. */
  function UpdatedRepo(repo: map<Cell, Props>, groups: map<Cell, FileChanges>): map<Cell, Props>
  {
    map p | p in repo.Keys + groups.Keys :: if p in groups then Merged(Load(repo, p), groups[p]) else repo[p]
  }

  /** The repository after the overwrite run: every grouped file replaced. */
  function OverwrittenRepo(repo: map<Cell, Props>, groups: map<Cell, FileChanges>): map<Cell, Props>
  {
    map p | p in repo.Keys + groups.Keys :: if p in groups then groups[p].updates else repo[p]
  }

  /**
   * `update_prop_entries`: for each file of the grouping, read it (empty
   * when missing), merge its group and write it back.
   */
  method UpdatePropEntries(repo: map<Cell, Props>, entries: seq<PropEntry>)
    returns (repo': map<Cell, Props>)
    ensures repo' == UpdatedRepo(repo, ByFile(entries))
  {
    var itemsByFile := GetByFile(entries);
    repo' := repo;
    var remaining := itemsByFile.Keys;
    while remaining != {}
      invariant remaining <= itemsByFile.Keys
      invariant repo'.Keys == repo.Keys + (itemsByFile.Keys - remaining)
      invariant forall p :: p in repo'.Keys ==>
        repo'[p] == if p in itemsByFile.Keys - remaining then Merged(Load(repo, p), itemsByFile[p]) else repo[p]
      decreases remaining
    {
      var relPath :| relPath in remaining;
      var propItems := Load(repo', relPath);
      propItems := MergeProps(propItems, itemsByFile[relPath]);
      repo' := repo'[relPath := propItems];
      remaining := remaining - {relPath};
    }
  }

  /**
   * `write_prop_entries`: for each file of the grouping, write its updates
   * over whatever was there; the delete lists are not consulted.
   */
  method WritePropEntries(repo: map<Cell, Props>, entries: seq<PropEntry>)
    returns (repo': map<Cell, Props>)
    ensures repo' == OverwrittenRepo(repo, ByFile(entries))
  {
    var itemsByFile := GetByFile(entries);
    repo' := repo;
    var remaining := itemsByFile.Keys;
    while remaining != {}
      invariant remaining <= itemsByFile.Keys
      invariant repo'.Keys == repo.Keys + (itemsByFile.Keys - remaining)
      invariant forall p :: p in repo'.Keys ==>
        repo'[p] == if p in itemsByFile.Keys - remaining then itemsByFile[p].updates else repo[p]
      decreases remaining
    {
      var relPath :| relPath in remaining;
      repo' := repo'[relPath := itemsByFile[relPath].updates];
      remaining := remaining - {relPath};
    }
  }

  /**
   * Overwriting drops a file's old keys and ignores its delete list: the file
   * holds exactly the last value set for each key by the entries.
   */
  lemma OverwriteIgnoresDeletes(repo: map<Cell, Props>, entries: seq<PropEntry>, path: Cell, key: Cell)
    requires path in ByFile(entries)
    ensures var written := OverwrittenRepo(repo, ByFile(entries))[path];
      key in written <==> exists j :: 0 <= j < |entries| && SetsKey(entries[j], path, key)
  {
    ByFileUpdates(entries, path, key);
  }

  /** Files the entries do not mention are left as they were by both runs. */
  lemma UnmentionedFilesUntouched(repo: map<Cell, Props>, entries: seq<PropEntry>, path: Cell)
    requires path in repo
    requires forall e :: e in entries ==> e.relPath != path
    ensures UpdatedRepo(repo, ByFile(entries))[path] == repo[path]
    ensures OverwrittenRepo(repo, ByFile(entries))[path] == repo[path]
  {
  }

  // ---------------------------------------------------------------------
  // Renaming the properties file

  /** The position just after the last '/', or 0 when there is none. */
  function AfterLastSlash(p: string): (i: nat)
    ensures i <= |p|
    ensures i > 0 ==> p[i - 1] == '/'
    ensures forall j :: i <= j < |p| ==> p[j] != '/'
  {
    if p == [] then 0
    else if p[|p| - 1] == '/' then |p|
    else AfterLastSlash(p[..|p| - 1])
  }

  function RStripSlashes(s: string): string
  {
    if s != [] && s[|s| - 1] == '/' then RStripSlashes(s[..|s| - 1]) else s
  }

  predicate AllSlashes(s: string)
  {
    forall i :: 0 <= i < |s| ==> s[i] == '/'
  }

  /**
   * `os.path.split` with '/' as separator: the tail is everything after the
   * last '/', the head everything before it, with trailing slashes removed
   * unless the head is made only of slashes.
   */
  function Split(p: string): (string, string)
  {
    var i := AfterLastSlash(p);
    var head := p[..i];
    var tail := p[i..];
    (if head != [] && !AllSlashes(head) then RStripSlashes(head) else head, tail)
  }

  /** `os.path.join` of two parts with '/' as separator. */
  function Join(a: string, b: string): string
  {
    if b != [] && b[0] == '/' then b
    else if a == [] || a[|a| - 1] == '/' then a + b
    else a + "/" + b
  }

  /**
   * The renamed path: when the last component contains a '.', it is taken
   * for a file name and replaced; otherwise the whole path is taken for a
   * directory and the new name is added under it.
   */
  function GetNewRelPath(origPath: string, newFilename: string): (r: string)
    ensures |newFilename| <= |r| && r[|r| - |newFilename|..] == newFilename
    ensures newFilename != [] && newFilename[0] == '/' ==> r == newFilename
  {
    var (potentialParentDir, origFile) := Split(origPath);
    var parentDir := if '.' !in origFile then origPath else potentialParentDir;
    Join(parentDir, newFilename)
  }

  lemma {:induction false} AfterLastSlashOfJoin(a: string, b: string)
    requires '/' !in b
    ensures AfterLastSlash(a + "/" + b) == |a| + 1
  {
    var p := a + "/" + b;
    if b != [] {
      assert p[..|p| - 1] == a + "/" + b[..|b| - 1];
      assert b[|b| - 1] in b;
      AfterLastSlashOfJoin(a, b[..|b| - 1]);
    } else {
      assert p[|p| - 1] == '/';
    }
  }

  lemma {:induction false} AfterLastSlashOfConcat(a: string, b: string)
    requires a != [] && a[|a| - 1] == '/' && '/' !in b
    ensures AfterLastSlash(a + b) == |a|
  {
    var p := a + b;
    if b != [] {
      assert p[..|p| - 1] == a + b[..|b| - 1];
      assert b[|b| - 1] in b;
      AfterLastSlashOfConcat(a, b[..|b| - 1]);
    } else {
      assert p == a;
    }
  }

  /** Removing trailing slashes from a path that is not all slashes leaves a non-empty path without one. */
  lemma {:induction false} RStripSlashesEnds(s: string)
    requires !AllSlashes(s)
    ensures RStripSlashes(s) != [] && RStripSlashes(s)[|RStripSlashes(s)| - 1] != '/'
  {
    if s[|s| - 1] == '/' {
      assert !AllSlashes(s[..|s| - 1]) by {
        var i :| 0 <= i < |s| && s[i] != '/';
        assert s[..|s| - 1][i] == s[i];
      }
      RStripSlashesEnds(s[..|s| - 1]);
    }
  }

  lemma AfterLastSlashNone(b: string)
    requires '/' !in b
    ensures AfterLastSlash(b) == 0
  {
  }

  /** A plain new file name becomes the last component of the new path. */
  lemma NewRelPathEndsWithName(origPath: string, newFilename: string)
    requires newFilename != [] && '/' !in newFilename
    ensures Split(GetNewRelPath(origPath, newFilename)).1 == newFilename
  {
    var (head, file) := Split(origPath);
    var parentDir := if '.' !in file then origPath else head;
    var r := GetNewRelPath(origPath, newFilename);
    assert newFilename[0] in newFilename;
    if parentDir == [] {
      assert r == newFilename;
      AfterLastSlashNone(newFilename);
    } else if parentDir[|parentDir| - 1] == '/' {
      assert r == parentDir + newFilename;
      AfterLastSlashOfConcat(parentDir, newFilename);
      assert r[|parentDir|..] == newFilename;
    } else {
      assert r == parentDir + "/" + newFilename;
      AfterLastSlashOfJoin(parentDir, newFilename);
      assert r[|parentDir| + 1..] == newFilename;
    }
  }

  /** A bare "name.ext" with no directory is replaced by the new name. */
  lemma NewRelPathReplacesBareFileName(fileName: string, newFilename: string)
    requires '/' !in fileName && '.' in fileName
    ensures GetNewRelPath(fileName, newFilename) == newFilename
  {
    AfterLastSlashNone(fileName);
    assert fileName[0..] == fileName;
  }

  /**
   * Splitting `dir/name`: the tail is the name; the head is `dir` without its
   * trailing slashes, or `dir/` when `dir` is only slashes.
   */
  lemma SplitOfJoin(dir: string, fileName: string)
    requires '/' !in fileName
    ensures Split(dir + "/" + fileName)
      == (if AllSlashes(dir) then dir + "/" else RStripSlashes(dir), fileName)
  {
    var p := dir + "/" + fileName;
    AfterLastSlashOfJoin(dir, fileName);
    assert p[..|dir| + 1] == dir + "/";
    assert p[|dir| + 1..] == fileName;
    if AllSlashes(dir) {
      assert AllSlashes(dir + "/") by {
        forall i | 0 <= i < |dir| + 1
          ensures (dir + "/")[i] == '/'
        {
          if i < |dir| {
            assert (dir + "/")[i] == dir[i];
          }
        }
      }
    } else {
      assert !AllSlashes(dir + "/") by {
        var i :| 0 <= i < |dir| && dir[i] != '/';
        assert (dir + "/")[i] == dir[i];
      }
      assert (dir + "/")[..|dir|] == dir;
      assert RStripSlashes(dir + "/") == RStripSlashes(dir);
    }
  }

  /**
   * With a last component "name.ext" after the directory part `dir`, the
   * file name is replaced: the result is `dir/newName` with the trailing
   * slashes of `dir` removed, unless `dir` is only slashes (the root, or
   * empty for "/name.ext"), which is kept with one more '/'.
   */
  lemma NewRelPathReplacesFileName(dir: string, fileName: string, newFilename: string)
    requires '/' !in fileName && '.' in fileName
    requires newFilename == [] || newFilename[0] != '/'
    ensures GetNewRelPath(dir + "/" + fileName, newFilename)
      == if AllSlashes(dir) then dir + "/" + newFilename else RStripSlashes(dir) + "/" + newFilename
  {
    SplitOfJoin(dir, fileName);
    if !AllSlashes(dir) {
      RStripSlashesEnds(dir);
    }
  }

  /**
   * With a last component holding no '.', the path is kept whole and the
   * new name is added under it, with a '/' unless the path is empty or
   * already ends in one.
   */
  lemma NewRelPathAppendsUnderDirectory(path: string, newFilename: string)
    requires '.' !in Split(path).1
    requires newFilename == [] || newFilename[0] != '/'
    ensures GetNewRelPath(path, newFilename)
      == if path == [] || path[|path| - 1] == '/' then path + newFilename else path + "/" + newFilename
  {
  }
}
