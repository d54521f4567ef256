/**
 * `UnixFileMappingReader`: an iterator over file mappings that reads its list
 * files on the first iterator call and from then on walks the cached result.
 */
module Reader {
  import opened Wrappers
  import opened Php
  import opened FileMappings

  /** The part of SPL's `ArrayIterator` the reader uses: an array that is fixed
      once built, and a cursor over its elements in order. */
  class ArrayIterator<T> {
    const storage: seq<Entry<T>>
    var position: nat

    /** `new ArrayIterator($array)`: the cursor starts on the first element. */
    constructor (storage: seq<Entry<T>>)
      ensures this.storage == storage && position == 0
    {
      this.storage := storage;
      position := 0;
    }

    /** `next()`: moves to the following element; past the end it stays put. */
    method Next()
      modifies this
      ensures position == if old(position) < |storage| then old(position) + 1 else old(position)
    {
      if position < |storage| {
        position := position + 1;
      }
    }

    /** `rewind()`: back to the first element. */
    method Rewind()
      modifies this
      ensures position == 0
    {
      position := 0;
    }

    /** `valid()`: whether the cursor is on an element. */
    method Valid() returns (b: bool)
      ensures b <==> position < |storage|
    {
      b := position < |storage|;
    }

    /** `key()`: the key of the element under the cursor, null past the end. */
    method Key() returns (k: Option<nat>)
      ensures position < |storage| ==> k == Some(storage[position].key)
      ensures position >= |storage| ==> k == None
    {
      k := if position < |storage| then Some(storage[position].key) else None;
    }

    /** `current()`: the element under the cursor, null past the end. */
    method Current() returns (v: Option<T>)
      ensures position < |storage| ==> v == Some(storage[position].value)
      ensures position >= |storage| ==> v == None
    {
      v := if position < |storage| then Some(storage[position].value) else None;
    }
  }

  class UnixFileMappingReader {
    const sourceDirectory: string
    const targetDirectory: string
    const mappingFilePaths: seq<string>

    /** The cache: null until a load succeeds. */
    var mappings: ArrayIterator?<FileMapping>

    /** The merged raw lines the cache was built from. */
    ghost var lines: seq<string>

    /** The cache, once built, holds the mappings of the lines it was read from. */
    ghost predicate Invariant()
      reads this
    {
      mappings != null ==> mappings.storage == Build(sourceDirectory, targetDirectory, lines)
    }

    /** Where the cursor of the cache is; 0, where a fresh cache starts, before loading. */
    ghost function Cursor(): nat
      reads this, mappings
    {
      if mappings == null then 0 else mappings.position
    }

    /** What the one-time load does to the reader given the list files `fs`:
        nothing once the cache exists; otherwise the cache is built from the
        files' lines, or stays null when a list file cannot be opened. */
    twostate predicate LoadedOnce(fs: FileSystem)
      reads this
    {
      if old(mappings) != null then
        mappings == old(mappings) && lines == old(lines)
      else match ReadAll(mappingFilePaths, fs)
        case Failure(_) => mappings == null
        case Success(ls) => mappings != null && fresh(mappings) && lines == ls
    }

    /** The constructor only records its arguments: no file is read and the
        cache is null. */
    constructor (sourceDirectory: string, targetDirectory: string, mappingFilePaths: seq<string>)
      ensures this.sourceDirectory == sourceDirectory && this.targetDirectory == targetDirectory
      ensures this.mappingFilePaths == mappingFilePaths
      ensures mappings == null && Invariant()
    {
      this.sourceDirectory := sourceDirectory;
      this.targetDirectory := targetDirectory;
      this.mappingFilePaths := mappingFilePaths;
      mappings := null;
    }

    /** `getMappings()`: builds the cache the first time it succeeds and leaves
        it alone afterwards. A list file that cannot be opened raises before the
        cache is assigned, so the next call tries again. */
    method GetMappings(fs: FileSystem) returns (r: Outcome<Failure>)
      requires Invariant()
      modifies this
      ensures Invariant() && LoadedOnce(fs)
      ensures r.Fail? <==> mappings == null
      ensures r.Fail? ==> r == Fail(ReadAll(mappingFilePaths, fs).error)
      ensures mappings != null ==> mappings.position == old(Cursor())
    {
      if mappings == null {
        var filePaths: seq<Entry<string>> := [];
        var i := 0;
        assert Values(filePaths) == [];
        while i < |mappingFilePaths|
          invariant 0 <= i <= |mappingFilePaths|
          invariant IsList(filePaths)
          invariant ReadAll(mappingFilePaths[..i], fs) == Success(Values(filePaths))
        {
          var path := mappingFilePaths[i];
          if path !in fs {
            ReadAllSucceeds(mappingFilePaths[..i], fs);
            ReadAllFirstFailure(mappingFilePaths, fs, i);
            return Fail(UnreadableFile(path));
          }
          assert mappingFilePaths[..i + 1][..i] == mappingFilePaths[..i];
          assert Values(List(fs[path])) == fs[path];
          filePaths := ArrayMerge(filePaths, List(fs[path]));
          i := i + 1;
        }
        assert mappingFilePaths[..i] == mappingFilePaths;
        ListRoundTrip(Values(filePaths), filePaths);
        lines := Values(filePaths);
        mappings := new ArrayIterator(MapToMappings(sourceDirectory, targetDirectory, ArrayFilter(filePaths)));
      }
      r := Pass;
    }

    /** `next()`: loads if needed, then advances the cached cursor by one. */
    method Next(fs: FileSystem) returns (r: Outcome<Failure>)
      requires Invariant()
      modifies this, mappings
      ensures Invariant() && LoadedOnce(fs)
      ensures r.Fail? <==> mappings == null
      ensures r.Fail? ==> r == Fail(ReadAll(mappingFilePaths, fs).error)
      ensures mappings != null ==>
        mappings.position == (if old(Cursor()) < |mappings.storage| then old(Cursor()) + 1 else old(Cursor()))
    {
      r := GetMappings(fs);
      if r.Pass? {
        mappings.Next();
      }
    }

    /** `rewind()`: loads if needed, then puts the cursor on the first mapping;
        the files are not read again. */
    method Rewind(fs: FileSystem) returns (r: Outcome<Failure>)
      requires Invariant()
      modifies this, mappings
      ensures Invariant() && LoadedOnce(fs)
      ensures r.Fail? <==> mappings == null
      ensures r.Fail? ==> r == Fail(ReadAll(mappingFilePaths, fs).error)
      ensures mappings != null ==> mappings.position == 0
    {
      r := GetMappings(fs);
      if r.Pass? {
        mappings.Rewind();
      }
    }

    /** `valid()`: whether the cursor is on a mapping. */
    method Valid(fs: FileSystem) returns (r: Result<bool, Failure>)
      requires Invariant()
      modifies this
      ensures Invariant() && LoadedOnce(fs)
      ensures mappings == null ==> r == Failure(ReadAll(mappingFilePaths, fs).error)
      ensures mappings != null ==> mappings.position == old(Cursor())
      ensures mappings != null ==> r == Success(old(Cursor()) < |mappings.storage|)
    {
      var loaded := GetMappings(fs);
      if loaded.Fail? {
        return Failure(loaded.error);
      }
      var b := mappings.Valid();
      r := Success(b);
    }

    /** `key()`: the key of the mapping under the cursor, which is the index of
        its line among the merged raw lines. Past the end the cache gives null,
        which the `int` return type turns into a TypeError. */
    method Key(fs: FileSystem) returns (r: Result<nat, Failure>)
      requires Invariant()
      modifies this
      ensures Invariant() && LoadedOnce(fs)
      ensures mappings == null ==> r == Failure(ReadAll(mappingFilePaths, fs).error)
      ensures mappings != null ==> mappings.position == old(Cursor())
      ensures mappings != null ==>
        r == if old(Cursor()) < |mappings.storage| then Success(mappings.storage[old(Cursor())].key)
             else Failure(InvalidPosition)
    {
      var loaded := GetMappings(fs);
      if loaded.Fail? {
        return Failure(loaded.error);
      }
      var k := mappings.Key();
      r := if k.Some? then Success(k.value) else Failure(InvalidPosition);
    }

    /** `current()`: the mapping under the cursor. Past the end the cache gives
        null, which the non-nullable return type turns into a TypeError. */
    method Current(fs: FileSystem) returns (r: Result<FileMapping, Failure>)
      requires Invariant()
      modifies this
      ensures Invariant() && LoadedOnce(fs)
      ensures mappings == null ==> r == Failure(ReadAll(mappingFilePaths, fs).error)
      ensures mappings != null ==> mappings.position == old(Cursor())
      ensures mappings != null ==>
        r == if old(Cursor()) < |mappings.storage| then Success(mappings.storage[old(Cursor())].value)
             else Failure(InvalidPosition)
    {
      var loaded := GetMappings(fs);
      if loaded.Fail? {
        return Failure(loaded.error);
      }
      var v := mappings.Current();
      r := if v.Some? then Success(v.value) else Failure(InvalidPosition);
    }
  }

  /** A client: after the first call the list file may disappear; the keys
      skip the dropped empty line; past the last mapping `valid()` is false and
      `current()` fails. */
  method IterateAfterFilesAreGone(src: string, tgt: string, list: string, x: string, y: string)
    requires !IsFalsy(x) && !IsFalsy(y)
  {
    var reader := new UnixFileMappingReader(src, tgt, [list]);
    var gone: FileSystem := map[];
    var present: FileSystem := map[list := [x, "", y]];
    assert [list][..0] == [];
    var missing := reader.Valid(gone);
    assert missing == Failure(UnreadableFile(list));
    assert ReadAll([list], present) == Success([x, "", y]) by {
      assert ReadAll([list][..0], present) == Success([]);
      assert [] + present[list] == [x, "", y];
    }
    var r := reader.Rewind(present);
    assert reader.lines == [x, "", y];
    KeysKeepGaps(src, tgt, x, y);
    var k := reader.Key(gone);
    assert k == Success(0);
    r := reader.Next(gone);
    k := reader.Key(gone);
    assert k == Success(2);
    var m := reader.Current(gone);
    assert m == Success(MappingOf(src, tgt, y));
    r := reader.Next(gone);
    var v := reader.Valid(gone);
    assert v == Success(false);
    m := reader.Current(gone);
    assert m == Failure(InvalidPosition);
    r := reader.Rewind(gone);
    v := reader.Valid(gone);
    assert v == Success(true);
  }
}
