/**
 * The pure part of `UnixFileMappingReader::getMappings()`: reading the list
 * files in order, filtering the raw lines, and turning each surviving line into
 * a file mapping under the key it had in the merged line array.
 */
module FileMappings {
  import opened Wrappers
  import opened Php

  /** One relative path mapped from the source tree to the target tree. How
      `UnixFileMapping` joins a directory and a relative path is not part of
      this model, so the mapping keeps the three strings it is built from. */
  datatype FileMapping = FileMapping(sourceDirectory: string, targetDirectory: string, relativePath: string)

  /** The list files that can be opened at the time of a call, each with its raw
      lines as the file iterator yields them. A path that is absent cannot be opened. */
  type FileSystem = map<string, seq<string>>

  datatype Failure =
    | UnreadableFile(path: string)  // opening the list file at `path` raised an exception
    | InvalidPosition               // `key()` or `current()` got null from the cache: a TypeError

  /** The raw lines of every list file, in the order the paths are given and in
      file order within each file; fails on the first path that cannot be opened.
      Defined last path first, as the reading loop appends one file at a time. */
  function ReadAll(paths: seq<string>, fs: FileSystem): Result<seq<string>, Failure>
    decreases |paths|
  {
    if paths == [] then Success([])
    else
      var last := paths[|paths| - 1];
      match ReadAll(paths[..|paths| - 1], fs)
      case Failure(e) => Failure(e)
      case Success(lines) =>
        if last in fs then Success(lines + fs[last]) else Failure(UnreadableFile(last))
  }

  /** The contents of the files at `paths`, in order. */
  function Contents(paths: seq<string>, fs: FileSystem): seq<seq<string>>
    requires forall p :: p in paths ==> p in fs
  {
    seq(|paths|, i requires 0 <= i < |paths| => fs[paths[i]])
  }

  /** The files' lines one file after another. */
  function Flatten(files: seq<seq<string>>): seq<string> {
    if files == [] then [] else files[0] + Flatten(files[1..])
  }

  /** The closure of `getMappings()`: a mapping of the trimmed line between the
      configured directories. */
  function MappingOf(src: string, tgt: string, line: string): FileMapping {
    FileMapping(src, tgt, Trim(line))
  }

  /** `array_map` of that closure over one array: keys are kept. */
  function MapToMappings(src: string, tgt: string, a: seq<Entry<string>>): seq<Entry<FileMapping>> {
    seq(|a|, i requires 0 <= i < |a| => Entry(a[i].key, MappingOf(src, tgt, a[i].value)))
  }

  /** What `getMappings()` caches for the merged raw lines `lines`:
      `array_map(closure, array_filter(lines))`. */
  function Build(src: string, tgt: string, lines: seq<string>): seq<Entry<FileMapping>> {
    MapToMappings(src, tgt, ArrayFilter(List(lines)))
  }

  /** Reading succeeds exactly when every list file can be opened. */
  lemma {:induction false} ReadAllSucceeds(paths: seq<string>, fs: FileSystem)
    ensures ReadAll(paths, fs).Success? <==> forall p :: p in paths ==> p in fs
  {
    if paths != [] {
      var init := paths[..|paths| - 1];
      ReadAllSucceeds(init, fs);
      assert paths == init + [paths[|paths| - 1]];
    }
  }

  /** The first list file that cannot be opened is the one reported. */
  lemma {:induction false} ReadAllFirstFailure(paths: seq<string>, fs: FileSystem, k: nat)
    requires k < |paths| && paths[k] !in fs
    requires forall j :: 0 <= j < k ==> paths[j] in fs
    ensures ReadAll(paths, fs) == Failure(UnreadableFile(paths[k]))
  {
    var init := paths[..|paths| - 1];
    if k == |paths| - 1 {
      ReadAllSucceeds(init, fs);
    } else {
      ReadAllFirstFailure(init, fs, k);
    }
  }

  lemma {:induction false} FlattenSnoc(files: seq<seq<string>>, f: seq<string>)
    ensures Flatten(files + [f]) == Flatten(files) + f
  {
    if files != [] {
      assert (files + [f])[1..] == files[1..] + [f];
      FlattenSnoc(files[1..], f);
    }
  }

  /** When every list file opens, the merged lines are the files' lines
      concatenated in the order of the paths. */
  lemma {:induction false} ReadAllConcatenates(paths: seq<string>, fs: FileSystem)
    requires forall p :: p in paths ==> p in fs
    ensures ReadAll(paths, fs) == Success(Flatten(Contents(paths, fs)))
  {
    if paths != [] {
      var init := paths[..|paths| - 1];
      ReadAllConcatenates(init, fs);
      assert Contents(paths, fs) == Contents(init, fs) + [fs[paths[|paths| - 1]]];
      FlattenSnoc(Contents(init, fs), fs[paths[|paths| - 1]]);
    }
  }

  /** Every cached entry is a non-falsy raw line under its index in the merged
      lines, mapped with that line trimmed. */
  lemma BuildEntriesAreSurvivors(src: string, tgt: string, lines: seq<string>)
    ensures forall j :: 0 <= j < |Build(src, tgt, lines)| ==>
      Build(src, tgt, lines)[j].key < |lines| &&
      !IsFalsy(lines[Build(src, tgt, lines)[j].key]) &&
      Build(src, tgt, lines)[j].value == MappingOf(src, tgt, lines[Build(src, tgt, lines)[j].key])
  {
    var f := ArrayFilter(List(lines));
    var b := Build(src, tgt, lines);
    forall j | 0 <= j < |b|
      ensures b[j].key < |lines| && !IsFalsy(lines[b[j].key]) && b[j].value == MappingOf(src, tgt, lines[b[j].key])
    {
      assert f[j] in f;
      assert b[j] == Entry(f[j].key, MappingOf(src, tgt, f[j].value));
    }
  }

  /** A raw line has its entry in the cache exactly when it is not falsy. */
  lemma BuildKeepsEverySurvivor(src: string, tgt: string, lines: seq<string>)
    ensures forall i :: 0 <= i < |lines| ==>
      (Entry(i, MappingOf(src, tgt, lines[i])) in Build(src, tgt, lines) <==> !IsFalsy(lines[i]))
  {
    var l := List(lines);
    var f := ArrayFilter(l);
    var b := Build(src, tgt, lines);
    BuildEntriesAreSurvivors(src, tgt, lines);
    forall i | 0 <= i < |lines|
      ensures Entry(i, MappingOf(src, tgt, lines[i])) in b <==> !IsFalsy(lines[i])
    {
      if !IsFalsy(lines[i]) {
        assert l[i] == Entry(i, lines[i]);
        assert l[i] in f;
        var j :| 0 <= j < |f| && f[j] == l[i];
        assert b[j] == Entry(i, MappingOf(src, tgt, lines[i]));
      }
    }
  }

  /** Cached entries keep the order of their raw lines. */
  lemma BuildKeepsOrder(src: string, tgt: string, lines: seq<string>)
    ensures Increasing(Build(src, tgt, lines))
  {
    ArrayFilterIncreasing(List(lines));
  }

  /** One mapping per raw line that is not falsy. */
  lemma BuildCount(src: string, tgt: string, lines: seq<string>)
    ensures |Build(src, tgt, lines)| == TruthyCount(lines)
  {
    ArrayFilterCount(List(lines));
    assert Values(List(lines)) == lines;
  }

  /** The cache is empty exactly when every raw line is falsy. */
  lemma BuildEmpty(src: string, tgt: string, lines: seq<string>)
    ensures Build(src, tgt, lines) == [] <==> forall i :: 0 <= i < |lines| ==> IsFalsy(lines[i])
  {
    var b := Build(src, tgt, lines);
    BuildEntriesAreSurvivors(src, tgt, lines);
    BuildKeepsEverySurvivor(src, tgt, lines);
    if b != [] {
      var k := b[0].key;
      assert k < |lines| && !IsFalsy(lines[k]);
    } else {
      forall i | 0 <= i < |lines| ensures IsFalsy(lines[i]) {
        assert Entry(i, MappingOf(src, tgt, lines[i])) !in b;
      }
    }
  }

  /** A raw line of whitespace only is not falsy, so it survives the filter and
      maps to an empty relative path. */
  lemma WhitespaceLineMapsToEmptyPath(src: string, tgt: string, lines: seq<string>, i: nat)
    requires i < |lines| && lines[i] != [] && AllTrimChars(lines[i])
    ensures Entry(i, FileMapping(src, tgt, [])) in Build(src, tgt, lines)
  {
    assert lines[i][0] != '0';
    TrimEnds(lines[i]);
    BuildKeepsEverySurvivor(src, tgt, lines);
  }

  lemma MapToMappingsAppend(src: string, tgt: string, a: seq<Entry<string>>, b: seq<Entry<string>>)
    ensures MapToMappings(src, tgt, a + b) == MapToMappings(src, tgt, a) + MapToMappings(src, tgt, b)
  {
    var l, r := MapToMappings(src, tgt, a + b), MapToMappings(src, tgt, a) + MapToMappings(src, tgt, b);
    assert |l| == |r|;
    forall i | 0 <= i < |l| ensures l[i] == r[i] {
      if i < |a| {
        assert (a + b)[i] == a[i];
      } else {
        assert (a + b)[i] == b[i - |a|];
      }
    }
  }

  lemma MapToMappingsShift(src: string, tgt: string, a: seq<Entry<string>>, n: nat)
    ensures MapToMappings(src, tgt, Shift(a, n)) == Shift(MapToMappings(src, tgt, a), n)
  {
  }

  /** The lines of a later file yield their mappings after those of the earlier
      lines, with keys counted on from the number of earlier raw lines. */
  lemma BuildAppend(src: string, tgt: string, xs: seq<string>, ys: seq<string>)
    ensures Build(src, tgt, xs + ys) == Build(src, tgt, xs) + Shift(Build(src, tgt, ys), |xs|)
  {
    ListAppend(xs, ys);
    ArrayFilterAppend(List(xs), Shift(List(ys), |xs|));
    ArrayFilterShift(List(ys), |xs|);
    MapToMappingsAppend(src, tgt, ArrayFilter(List(xs)), Shift(ArrayFilter(List(ys)), |xs|));
    MapToMappingsShift(src, tgt, ArrayFilter(List(ys)), |xs|);
  }

  /** A list file holding `x`, an empty line and `y` yields two mappings, under
      the keys 0 and 2: the key of the second skips the dropped empty line. */
  lemma KeysKeepGaps(src: string, tgt: string, x: string, y: string)
    requires !IsFalsy(x) && !IsFalsy(y)
    ensures Build(src, tgt, [x, "", y]) ==
      [Entry(0, MappingOf(src, tgt, x)), Entry(2, MappingOf(src, tgt, y))]
  {
    var l := List([x, "", y]);
    assert l == [Entry(0, x), Entry(1, ""), Entry(2, y)];
    assert ArrayFilter(l[2..]) == [l[2]];
    assert ArrayFilter(l[1..]) == [l[2]] by {
      assert l[1..][1..] == l[2..];
    }
    assert ArrayFilter(l) == [l[0], l[2]];
  }
}
