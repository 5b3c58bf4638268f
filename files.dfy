/** The file operations the scripts perform on their outputs, on the map from paths to files of
    the loader: writing a file, appending to a log and renaming a download. Directories are not
    represented: `os.makedirs(..., exist_ok=True)` never fails and changes no file. */
module Files {
  import opened Common
  import Text
  import Paths
  import Loader

  /** A file written in text mode: its text reads back unchanged whichever encoding is tried. */
  function Written(text: string): Loader.TextFile {
    map[Loader.Utf8 := text, Loader.ShiftJis := text, Loader.Cp932 := text]
  }

  /** `open(path, "w")` and a write of `text`: the file at `path` is replaced. */
  function Save(disk: Loader.TextDisk, path: string, text: string): Loader.TextDisk {
    disk[path := Written(text)]
  }

  /** A file written with `text` loads as the lines of `text`. */
  lemma SavedLoads(disk: Loader.TextDisk, path: string, text: string)
    ensures Loader.Load(Save(disk, path, text), path) == Ok(Some(Text.SplitLines(text)))
  {
    assert Loader.Encodings[0] == Loader.Utf8;
    assert Loader.Decoded(Written(text)) == Some(text);
  }

  /** `open(path, mode="a")` and a write of `text` (`AppendContents` says what it does). */
  function AppendText(disk: Loader.TextDisk, path: string, text: string): Loader.TextDisk {
    if path in disk then
      var file := disk[path];
      disk[path := map e | e in file :: file[e] + text]
    else disk[path := Written(text)]
  }

  /** A missing file is created holding `text`; an existing one has `text` added at its end,
      whichever encoding it is read in; no other file changes. */
  lemma AppendContents(disk: Loader.TextDisk, path: string, text: string)
    ensures var after := AppendText(disk, path, text);
      && path in after
      && (path !in disk ==> after[path] == Written(text))
      && (path in disk ==> forall e :: e in after[path] <==> e in disk[path])
      && (path in disk ==> forall e :: e in disk[path] ==> after[path][e] == disk[path][e] + text)
      && (forall p :: p != path ==> (p in after <==> p in disk) && (p in disk ==> after[p] == disk[p]))
  {
  }

  /** `os.rename(src, dst)` as on Windows, the platform the encodings point to
      (`RenameOutcomes` says what it does). */
  function Rename(disk: Loader.TextDisk, src: string, dst: string): Result<Loader.TextDisk> {
    if src !in disk then Raise(FileNotFoundError)
    else if dst in disk then Raise(FileExistsError)
    else Ok((disk - {src})[dst := disk[src]])
  }

  /** A missing source raises FileNotFoundError, an existing destination FileExistsError;
      otherwise the file moves and nothing else changes. */
  lemma RenameOutcomes(disk: Loader.TextDisk, src: string, dst: string)
    ensures var r := Rename(disk, src, dst);
      && (r == Raise(FileNotFoundError) <==> src !in disk)
      && (r == Raise(FileExistsError) <==> src in disk && dst in disk)
      && (r.Ok? <==> src in disk && dst !in disk)
      && (r.Ok? ==> dst in r.value && r.value[dst] == disk[src] && src !in r.value)
      && (r.Ok? ==> forall p :: p != src && p != dst ==> (p in r.value <==> p in disk) && (p in disk ==> r.value[p] == disk[p]))
  {
  }

  // ---------------------------------------------------------------- files only grow

  /** `after` holds every text `before` holds, possibly extended. */
  predicate Extends(before: Loader.TextFile, after: Loader.TextFile) {
    forall e :: e in before ==> e in after && before[e] <= after[e]
  }

  /** Every file of `before` whose name is not `raw` is still there in `after` and only
      extended: the scripts never delete or shorten a file other than a raw download. */
  predicate Grows(before: Loader.TextDisk, after: Loader.TextDisk, raw: string) {
    forall p :: p in before && Paths.Basename(p) != raw ==> p in after && Extends(before[p], after[p])
  }

  lemma GrowsRefl(disk: Loader.TextDisk, raw: string)
    ensures Grows(disk, disk, raw)
  {
  }

  lemma GrowsTrans(d0: Loader.TextDisk, d1: Loader.TextDisk, d2: Loader.TextDisk, raw: string)
    requires Grows(d0, d1, raw) && Grows(d1, d2, raw)
    ensures Grows(d0, d2, raw)
  {
    forall p | p in d0 && Paths.Basename(p) != raw ensures p in d2 && Extends(d0[p], d2[p]) {
      assert p in d1 && Extends(d0[p], d1[p]);
      assert Extends(d1[p], d2[p]);
    }
  }

  /** Appending only extends the file appended to. */
  lemma AppendGrows(disk: Loader.TextDisk, path: string, text: string, raw: string)
    ensures Grows(disk, AppendText(disk, path, text), raw)
  {
    var after := AppendText(disk, path, text);
    AppendContents(disk, path, text);
    forall p | p in disk && Paths.Basename(p) != raw ensures p in after && Extends(disk[p], after[p]) {
      if p == path {
        forall e | e in disk[p] ensures e in after[p] && disk[p][e] <= after[p][e] {
          assert after[p][e] == disk[p][e] + text;
        }
      }
    }
  }

  /** Creating a file that is not there yet loses nothing. */
  lemma CreateGrows(disk: Loader.TextDisk, path: string, file: Loader.TextFile, raw: string)
    requires path !in disk
    ensures Grows(disk, disk[path := file], raw)
  {
  }

  /** Moving a raw download to a free name loses nothing but the raw name. */
  lemma RenameGrows(disk: Loader.TextDisk, src: string, dst: string, raw: string)
    requires Paths.Basename(src) == raw && Rename(disk, src, dst).Ok?
    ensures Grows(disk, Rename(disk, src, dst).value, raw)
  {
    RenameOutcomes(disk, src, dst);
  }
}
