/** utils.py: the maintenance utilities run between batches to repair the organism list
    (`pickup_same`), shorten it by the organisms already done (`delete_finished`, fed by
    `get_all_txt`) and rewrite the header lines of a FASTA file (`delete_blank`). */
module Maintenance {
  import opened Common
  import Text
  import Seqs
  import Paths
  import Loader
  import opened Files

  /** `os.path.join(ROOT_DIR, "organism.txt")`: the organisms still to process. */
  function OrganismList(root: string): string {
    Paths.Join(root, "organism.txt")
  }

  /** `os.path.join(ROOT_DIR, "finished_organism.txt")`: the organisms already processed. */
  function FinishedList(root: string): string {
    Paths.Join(root, "finished_organism.txt")
  }

  // ---------------------------------------------------------------- writing a list back

  /** `[item + "\n" for item in items]` with its last entry replaced by `.split()[0]` of itself;
      the replacement is not empty and holds no whitespace, so it is never `"\n"`. */
  lemma CutLast(items: seq<string>, token: string)
    requires items != [] && Text.FirstToken(items[|items| - 1] + "\n") == Some(token)
    ensures Text.Terminated(items)[|items| - 1 := token] == Text.Terminated(items[..|items| - 1]) + [token]
    ensures Text.Concat(Text.Terminated(items[..|items| - 1]) + [token]) == Text.Concat(Text.Terminated(items[..|items| - 1])) + token
    ensures "\n" != token
  {
    var n := |items|;
    assert Text.Terminated(items)[n - 1 := token] == Text.Terminated(items[..n - 1]) + [token];
    Text.ConcatAppend(Text.Terminated(items[..n - 1]), [token]);
    assert Text.Concat([token]) == token;
    assert token[0] != '\n' by {
      assert '\n' !in token by { Text.NoSpaceNoBreak(token); }
    }
  }

  /** What `writelines` receives after `write_list[-1] = write_list[-1].split()[0]` on
      `[item + "\n" for item in items]`: IndexError when there is no item or the last one
      holds only whitespace. */
  function SavedText(items: seq<string>): Result<string> {
    if items == [] then Raise(IndexError)
    else
      var n := |items|;
      var token := Text.FirstToken(items[n - 1] + "\n");
      if token.None? then Raise(IndexError)
      else Ok(Text.Concat(Text.Terminated(items[..n - 1])) + token.value)
  }

  /** The saved list is the items joined by "\n", with no newline at the end and the last item
      cut to its first whitespace-separated token; an empty or blank last item fails. */
  lemma SavedTextJoins(items: seq<string>)
    ensures SavedText(items).Ok? <==> items != [] && Text.FirstToken(items[|items| - 1]).Some?
    ensures SavedText(items).Raise? ==> SavedText(items).error == IndexError
    ensures SavedText(items).Ok? ==>
      SavedText(items).value == Text.Join('\n', items[..|items| - 1] + [Text.FirstToken(items[|items| - 1]).value])
  {
    if items != [] {
      var n := |items|;
      Text.FirstTokenIgnoresNewline(items[n - 1]);
      var token := Text.FirstToken(items[n - 1]);
      if token.Some? {
        Text.ConcatTerminatedIsJoin(items[..n - 1], token.value);
      }
    }
  }

  /** Reading a saved list back gives the lines that were joined. */
  lemma SavedListReloads(disk: Loader.TextDisk, path: string, init: seq<string>, token: string)
    requires forall i :: 0 <= i < |init| ==> Text.NoBreak(init[i])
    requires token != "" && Text.NoSpace(token)
    ensures Loader.Load(Save(disk, path, Text.Concat(Text.Terminated(init)) + token), path) == Ok(Some(init + [token]))
  {
    var text := Text.Concat(Text.Terminated(init)) + token;
    SavedLoads(disk, path, text);
    Text.NoSpaceNoBreak(token);
    Text.SplitLinesOfTerminated(init, token);
    Text.SplitLinesSingle(token);
  }

  // ---------------------------------------------------------------- pickup_same

  /** The "same items" report: the keys of `collections.Counter(inputs)` counted more than
      once, in the counter's order of first occurrence. */
  function SameItems(inputs: seq<string>): seq<string> {
    Seqs.Repeated(Seqs.FromKeys(inputs), inputs)
  }

  /** The report lists exactly the values that occur more than once, each once, in the order
      of `dict.fromkeys`. */
  lemma SameItemsAreRepeats(inputs: seq<string>)
    ensures forall v :: v in SameItems(inputs) <==> multiset(inputs)[v] > 1
    ensures Seqs.NoDup(SameItems(inputs))
    ensures Seqs.IsSubsequence(SameItems(inputs), Seqs.FromKeys(inputs))
  {
    var d := Seqs.FromKeys(inputs);
    var r := SameItems(inputs);
    forall v ensures v in r <==> multiset(inputs)[v] > 1 {
      if v in r {
        var i :| 0 <= i < |r| && r[i] == v;
      }
      if multiset(inputs)[v] > 1 {
        assert v in inputs;
        var i :| 0 <= i < |inputs| && inputs[i] == v;
        assert v in d;
        var j :| 0 <= j < |d| && d[j] == v;
      }
    }
    Seqs.RepeatedIsSubsequence(d, inputs);
    Seqs.SubsequenceNoDup(r, d);
  }

  /** What `pickup_same(exclude=True)` writes for the deduplicated list `keys`: as `SavedText`,
      and then the first empty item (the entry `"\n"`) is removed; ValueError when there is none. */
  function DedupText(keys: seq<string>): Result<string> {
    if keys == [] then Raise(IndexError)
    else
      var n := |keys|;
      var token := Text.FirstToken(keys[n - 1] + "\n");
      if token.None? then Raise(IndexError)
      else if "" !in keys[..n - 1] then Raise(ValueError)
      else Ok(Text.Concat(Text.Terminated(Seqs.RemoveFirst(keys[..n - 1], ""))) + token.value)
  }

  /** The deduplicated list is saved joined by "\n" without its first empty item and with the
      last item cut to its first token; without an empty item before the last it fails. */
  lemma DedupTextJoins(keys: seq<string>)
    ensures DedupText(keys).Ok? <==>
      keys != [] && Text.FirstToken(keys[|keys| - 1]).Some? && "" in keys[..|keys| - 1]
    ensures DedupText(keys) == Raise(ValueError) <==>
      keys != [] && Text.FirstToken(keys[|keys| - 1]).Some? && "" !in keys[..|keys| - 1]
    ensures DedupText(keys).Ok? ==>
      DedupText(keys).value == Text.Join('\n', Seqs.RemoveFirst(keys[..|keys| - 1], "") + [Text.FirstToken(keys[|keys| - 1]).value])
  {
    if keys != [] {
      var n := |keys|;
      Text.FirstTokenIgnoresNewline(keys[n - 1]);
      var token := Text.FirstToken(keys[n - 1]);
      if token.Some? && "" in keys[..n - 1] {
        Text.ConcatTerminatedIsJoin(Seqs.RemoveFirst(keys[..n - 1], ""), token.value);
      }
    }
  }

  /** `write_list.remove("\n")` on `[item + "\n" for item in items]` takes out the entry of the
      first empty item. */
  lemma RemoveTerminatedEmpty(items: seq<string>)
    requires "" in items
    ensures "\n" in Text.Terminated(items)
    ensures Seqs.RemoveFirst(Text.Terminated(items), "\n") == Text.Terminated(Seqs.RemoveFirst(items, ""))
  {
    var t := Text.Terminated(items);
    var k := Seqs.FirstIndex(items, "");
    assert t[k] == "\n";
    forall j | 0 <= j < k ensures t[j] != "\n" {
      assert items[..k][j] == items[j];
    }
    Seqs.FirstIndexIs(t, "\n", k);
    assert t[..k] + t[k + 1..] == Text.Terminated(items[..k] + items[k + 1..]);
  }

  /** An item is the empty string exactly when its entry in the write list is `"\n"`. */
  lemma TerminatedEmpty(items: seq<string>)
    ensures "\n" in Text.Terminated(items) <==> "" in items
  {
    var t := Text.Terminated(items);
    if "\n" in t {
      var j :| 0 <= j < |t| && t[j] == "\n";
      assert items[j] == t[j][..|t[j]| - 1];
    }
    if "" in items {
      RemoveTerminatedEmpty(items);
    }
  }

  /** The outcome of `pickup_same`: the "same items" report and, with `exclude`, what is
      written back to organism.txt (or the exception raised instead). */
  datatype Pickup = Pickup(same: seq<string>, saved: Option<Result<string>>)

  /** `pickup_same(exclude)`: a missing organism.txt raises FileNotFoundError; an undecodable
      one counts as no items for the report (`Counter(None)` is empty) but makes
      `dict.fromkeys(None)` raise TypeError when excluding. */
  function PickupOutcome(disk: Loader.TextDisk, root: string, exclude: bool): Result<Pickup> {
    var loaded := Loader.Load(disk, OrganismList(root));
    if loaded.Raise? then Raise(loaded.error)
    else
      var same := SameItems(if loaded.value.Some? then loaded.value.value else []);
      if !exclude then Ok(Pickup(same, None))
      else if loaded.value.None? then Ok(Pickup(same, Some(Raise(TypeError))))
      else Ok(Pickup(same, Some(DedupText(Seqs.FromKeys(loaded.value.value)))))
  }

  /** `pickup_same`, with the write list overwritten and shortened in place as the source does. */
  method PickupSame(disk: Loader.TextDisk, root: string, exclude: bool) returns (r: Result<Pickup>, after: Loader.TextDisk)
    ensures r == PickupOutcome(disk, root, exclude)
    ensures r.Ok? && r.value.saved.Some? && r.value.saved.value.Ok? ==> after == Save(disk, OrganismList(root), r.value.saved.value.value)
    ensures !(r.Ok? && r.value.saved.Some? && r.value.saved.value.Ok?) ==> after == disk
  {
    var path := OrganismList(root);
    var loaded := Loader.LoadInput(disk, path);
    if loaded.Raise? {
      return Raise(loaded.error), disk;
    }
    var inputs := if loaded.value.Some? then loaded.value.value else [];
    var same := SameItems(inputs);
    if !exclude {
      return Ok(Pickup(same, None)), disk;
    }
    if loaded.value.None? {
      return Ok(Pickup(same, Some(Raise(TypeError)))), disk;
    }
    var saved := DedupWrite(Seqs.FromKeys(inputs));
    r := Ok(Pickup(same, Some(saved)));
    after := if saved.Ok? then Save(disk, path, saved.value) else disk;
  }

  /** The `exclude` branch of `pickup_same` on the deduplicated list `keys`: the write list is
      built, its last entry overwritten and its first `"\n"` removed in place. */
  method DedupWrite(keys: seq<string>) returns (saved: Result<string>)
    ensures saved == DedupText(keys)
  {
    var writeList := Text.Terminated(keys);
    if |writeList| == 0 {
      return Raise(IndexError);
    }
    var n := |writeList|;
    var last := Text.FirstToken(writeList[n - 1]);
    if last.None? {
      return Raise(IndexError);
    }
    CutLast(keys, last.value);
    writeList := writeList[n - 1 := last.value];
    TerminatedEmpty(keys[..n - 1]);
    if "\n" !in writeList {
      return Raise(ValueError);
    }
    var init := keys[..n - 1];
    RemoveTerminatedEmpty(init);
    Seqs.RemoveFirstAppend(Text.Terminated(init), [last.value], "\n");
    Text.ConcatAppend(Text.Terminated(Seqs.RemoveFirst(init, "")), [last.value]);
    assert Text.Concat([last.value]) == last.value;
    writeList := Seqs.RemoveFirst(writeList, "\n");
    saved := Ok(Text.Concat(writeList));
  }

  // ---------------------------------------------------------------- delete_finished

  /** `for org in finished: if org in pending: pending.remove(org)`. */
  function RemoveEach(pending: seq<string>, finished: seq<string>): seq<string>
    decreases |finished|
  {
    if finished == [] then pending
    else
      var rest := RemoveEach(pending, finished[..|finished| - 1]);
      var org := finished[|finished| - 1];
      if org in rest then Seqs.RemoveFirst(rest, org) else rest
  }

  /** What is left keeps its original relative order. */
  lemma {:induction false} RemoveEachIsSubsequence(pending: seq<string>, finished: seq<string>)
    ensures Seqs.IsSubsequence(RemoveEach(pending, finished), pending)
    decreases |finished|
  {
    if finished == [] {
      Seqs.SubsequenceRefl(pending);
    } else {
      var rest := RemoveEach(pending, finished[..|finished| - 1]);
      var org := finished[|finished| - 1];
      RemoveEachIsSubsequence(pending, finished[..|finished| - 1]);
      if org in rest {
        Seqs.RemoveFirstIsSubsequence(rest, org);
        Seqs.SubsequenceTrans(Seqs.RemoveFirst(rest, org), rest, pending);
      }
    }
  }

  /** Each finished entry takes away one equal pending entry if there is one, and nothing
      otherwise: the counts are those of a multiset difference. */
  lemma {:induction false} RemoveEachCounts(pending: seq<string>, finished: seq<string>)
    ensures multiset(RemoveEach(pending, finished)) == multiset(pending) - multiset(finished)
    decreases |finished|
  {
    if finished != [] {
      var init := finished[..|finished| - 1];
      var org := finished[|finished| - 1];
      var rest := RemoveEach(pending, init);
      RemoveEachCounts(pending, init);
      assert finished == init + [org];
      assert multiset(finished) == multiset(init) + multiset{org};
      if org !in rest {
        assert multiset(rest)[org] == 0;
      }
    }
  }

  /** Pending entries that no finished list names are all kept, in their original order. */
  lemma {:induction false} RemoveEachKeepsUnfinished(pending: seq<string>, finished: seq<string>, names: set<string>)
    requires forall i :: 0 <= i < |finished| ==> finished[i] in names
    ensures Seqs.Without(RemoveEach(pending, finished), names) == Seqs.Without(pending, names)
    decreases |finished|
  {
    if finished != [] {
      var init := finished[..|finished| - 1];
      var org := finished[|finished| - 1];
      var rest := RemoveEach(pending, init);
      RemoveEachKeepsUnfinished(pending, init, names);
      if org in rest {
        Seqs.RemoveFirstWithout(rest, org, names);
      }
    }
  }

  /** The names of a second list are processed after those of the first. */
  lemma {:induction false} RemoveEachAppend(pending: seq<string>, first: seq<string>, second: seq<string>)
    ensures RemoveEach(pending, first + second) == RemoveEach(RemoveEach(pending, first), second)
    decreases |second|
  {
    if second == [] {
      assert first + second == first;
    } else {
      var init := second[..|second| - 1];
      assert (first + second)[..|first + second| - 1] == first + init;
      RemoveEachAppend(pending, first, init);
    }
  }

  /** `fin_list` once the optional `extend` has run: the names of finished_organism.txt, then
      those of the list at `path`. `fin_list.extend` fails with AttributeError on `None` before
      the second list is read; `extend(None)` and `for org in None` raise TypeError. */
  function FinishedNames(disk: Loader.TextDisk, root: string, path: string): Result<seq<string>> {
    var fin := Loader.Load(disk, FinishedList(root));
    if fin.Raise? then Raise(fin.error)
    else if path != "" then
      if fin.value.None? then Raise(AttributeError)
      else
        var extra := Loader.Load(disk, path);
        if extra.Raise? then Raise(extra.error)
        else if extra.value.None? then Raise(TypeError)
        else Ok(fin.value.value + extra.value.value)
    else if fin.value.None? then Raise(TypeError)
    else Ok(fin.value.value)
  }

  /** What `delete_finished(path)` writes to organism.txt, or the exception it raises. */
  function DeleteFinishedOutcome(disk: Loader.TextDisk, root: string, path: string): Result<string> {
    var orgs := Loader.Load(disk, OrganismList(root));
    if orgs.Raise? then Raise(orgs.error)
    else
      var fin := FinishedNames(disk, root, path);
      if fin.Raise? then Raise(fin.error)
      else if orgs.value.None? then Raise(TypeError)
      else SavedText(RemoveEach(orgs.value.value, fin.value))
  }

  /** `delete_finished`: the pending list is loaded, then the finished names, and the pending
      list is shortened in place and written back. */
  method DeleteFinished(disk: Loader.TextDisk, root: string, path: string) returns (r: Result<string>, after: Loader.TextDisk)
    ensures r == DeleteFinishedOutcome(disk, root, path)
    ensures r.Ok? ==> after == Save(disk, OrganismList(root), r.value)
    ensures r.Raise? ==> after == disk
  {
    var orgs := Loader.LoadInput(disk, OrganismList(root));
    if orgs.Raise? {
      return Raise(orgs.error), disk;
    }
    var finList := LoadFinished(disk, root, path);
    if finList.Raise? {
      return Raise(finList.error), disk;
    }
    if orgs.value.None? {
      return Raise(TypeError), disk;
    }
    var orgList := RemoveAll(orgs.value.value, finList.value);
    r := WriteList(orgList);
    after := if r.Ok? then Save(disk, OrganismList(root), r.value) else disk;
  }

  /** `fin_list`: finished_organism.txt, extended by the list at `path` when one is given. */
  method LoadFinished(disk: Loader.TextDisk, root: string, path: string) returns (r: Result<seq<string>>)
    ensures r == FinishedNames(disk, root, path)
  {
    var fin := Loader.LoadInput(disk, FinishedList(root));
    if fin.Raise? {
      return Raise(fin.error);
    }
    if path == "" {
      return if fin.value.None? then Raise(TypeError) else Ok(fin.value.value);
    }
    if fin.value.None? {
      return Raise(AttributeError);
    }
    var extra := Loader.LoadInput(disk, path);
    if extra.Raise? {
      return Raise(extra.error);
    }
    if extra.value.None? {
      return Raise(TypeError);
    }
    return Ok(fin.value.value + extra.value.value);
  }

  /** The loop `for org in fin_list: if org in org_list: org_list.remove(org)`. */
  method RemoveAll(pending: seq<string>, finished: seq<string>) returns (left: seq<string>)
    ensures left == RemoveEach(pending, finished)
  {
    left := pending;
    for i := 0 to |finished|
      invariant left == RemoveEach(pending, finished[..i])
    {
      var org := finished[i];
      assert finished[..i + 1][..i] == finished[..i];
      if org in left {
        left := Seqs.RemoveFirst(left, org);
      }
    }
    assert finished[..|finished|] == finished;
  }

  /** The write list `[item + "\n" for item in items]` with its last entry overwritten in place
      by `split()[0]` of itself, and the text `writelines` writes from it. */
  method WriteList(items: seq<string>) returns (saved: Result<string>)
    ensures saved == SavedText(items)
  {
    var writeList := Text.Terminated(items);
    if |writeList| == 0 {
      return Raise(IndexError);
    }
    var n := |writeList|;
    var last := Text.FirstToken(writeList[n - 1]);
    if last.None? {
      return Raise(IndexError);
    }
    CutLast(items, last.value);
    writeList := writeList[n - 1 := last.value];
    return Ok(Text.Concat(writeList));
  }

  // ---------------------------------------------------------------- get_all_txt

  /** `os.path.splitext(os.path.basename(txt))[0]` of each result file. */
  function Stems(txts: seq<string>): (names: seq<string>)
    ensures |names| == |txts|
    ensures forall i :: 0 <= i < |txts| ==> names[i] == Paths.Stem(txts[i])
  {
    seq(|txts|, i requires 0 <= i < |txts| => Paths.Stem(txts[i]))
  }

  /** `get_all_txt` over the result files `txts` the glob found: finished_organism.txt is
      rewritten with each file's stem and "\n", in the glob's order. */
  method GetAllTxt(disk: Loader.TextDisk, root: string, txts: seq<string>) returns (after: Loader.TextDisk)
    ensures after == Save(disk, FinishedList(root), Text.Concat(Text.Terminated(Stems(txts))))
  {
    var text := "";
    ghost var names := Stems(txts);
    ghost var lines := Text.Terminated(names);
    for i := 0 to |txts|
      invariant text == Text.Concat(lines[..i])
    {
      var name := Paths.Stem(txts[i]);
      assert name == names[i];
      assert lines[i] == name + "\n";
      Text.ConcatPrefixStep(lines, i);
      text := text + (name + "\n");
    }
    assert lines[..|txts|] == lines;
    after := Save(disk, FinishedList(root), text);
  }

  /** A result saved as `<dir>/<organism>.txt` contributes exactly the name `<organism>`. */
  lemma StemsOfSaved(dirs: seq<string>, names: seq<string>, txts: seq<string>)
    requires |dirs| == |names| == |txts|
    requires forall i :: 0 <= i < |txts| ==> dirs[i] != "" && '/' !in names[i] && txts[i] == Paths.Join(dirs[i], names[i] + ".txt")
    requires forall i :: 0 <= i < |names| ==> exists j :: 0 <= j < |names[i]| && names[i][j] != '.'
    ensures Stems(txts) == names
  {
    forall i | 0 <= i < |txts| ensures Stems(txts)[i] == names[i] {
      StemOfSavedTxt(dirs[i], names[i], txts[i]);
    }
  }

  lemma StemOfSavedTxt(dir: string, name: string, txt: string)
    requires dir != "" && '/' !in name && txt == Paths.Join(dir, name + ".txt")
    requires exists j :: 0 <= j < |name| && name[j] != '.'
    ensures Paths.Stem(txt) == name
  {
    assert name + ".txt" == name + "." + "txt";
    Paths.StemOfSaved(dir, name, "txt");
  }

  /** The list `get_all_txt` writes is what `delete_finished("")` then reads as finished. */
  lemma GetAllTxtFeedsDeleteFinished(disk: Loader.TextDisk, root: string, txts: seq<string>)
    requires forall i :: 0 <= i < |txts| ==> Text.NoBreak(Paths.Stem(txts[i]))
    ensures FinishedNames(Save(disk, FinishedList(root), Text.Concat(Text.Terminated(Stems(txts)))), root, "") == Ok(Stems(txts))
  {
    var text := Text.Concat(Text.Terminated(Stems(txts)));
    SavedLoads(disk, FinishedList(root), text);
    Text.SplitLinesOfTerminated(Stems(txts), "");
    assert text + "" == text;
    assert Text.SplitLines("") == [];
    assert Stems(txts) + [] == Stems(txts);
  }

  // ---------------------------------------------------------------- delete_blank

  /** `f.readlines()`: the text cut after each "\n"; no piece is empty and the pieces make up
      the text (`ReadLinesPieces` says where the newlines are). */
  function ReadLines(text: string): (lines: seq<string>)
    ensures Text.Concat(lines) == text
    ensures forall i :: 0 <= i < |lines| ==> lines[i] != ""
    decreases |text|
  {
    if text == "" then []
    else
      var k := Text.IndexOf(text, '\n');
      if k == |text| then [text]
      else
        var rest := ReadLines(text[k + 1..]);
        assert text[..k + 1] + text[k + 1..] == text;
        [text[..k + 1]] + rest
  }

  /** A piece of `readlines`: its only "\n", if any, is its last character. */
  predicate OneLine(piece: string)
    requires piece != ""
  {
    '\n' !in piece[..|piece| - 1]
  }

  /** Every piece but the last ends with "\n", and no piece has a "\n" before its end. */
  lemma {:induction false} ReadLinesPieces(text: string)
    ensures forall i :: 0 <= i < |ReadLines(text)| - 1 ==> ReadLines(text)[i][|ReadLines(text)[i]| - 1] == '\n'
    ensures forall i :: 0 <= i < |ReadLines(text)| ==> OneLine(ReadLines(text)[i])
    decreases |text|
  {
    if text != "" {
      var k := Text.IndexOf(text, '\n');
      if k == |text| {
        assert text[..|text| - 1] == text[..k - 1];
        assert '\n' !in text[..k - 1];
      } else {
        var rest := text[k + 1..];
        var first := text[..k + 1];
        ReadLinesPieces(rest);
        var tail := ReadLines(rest);
        var lines := ReadLines(text);
        assert lines == [first] + tail;
        assert first[..k] == text[..k];
        assert OneLine(first) && first[|first| - 1] == '\n';
        forall i | 0 <= i < |lines| ensures OneLine(lines[i]) {
          if i > 0 {
            assert lines[i] == tail[i - 1];
          }
        }
        forall i | 0 <= i < |lines| - 1 ensures lines[i][|lines[i]| - 1] == '\n' {
          if i > 0 {
            assert lines[i] == tail[i - 1];
          }
        }
      }
    }
  }

  /** The rewrite of one line: `spl = line.split(" ")` and `spl[0] + "_" + " ".join(spl[1:])`
      for a header, the line itself otherwise (`RewriteLineMeaning` says what that comes to). */
  function RewriteLine(line: string): string
    requires line != ""
  {
    if line[0] == '>' then
      var spl := Text.Split(line, ' ');
      spl[0] + "_" + Text.Join(' ', spl[1..])
    else line
  }

  /** A non-header line is copied; a header with a space has its first space replaced by "_";
      a header without one gets "_" appended, after its newline if it has one. */
  lemma RewriteLineMeaning(line: string)
    requires line != ""
    ensures line[0] != '>' ==> RewriteLine(line) == line
    ensures line[0] == '>' && ' ' in line ==>
      var k := Text.IndexOf(line, ' '); RewriteLine(line) == line[..k] + "_" + line[k + 1..]
    ensures line[0] == '>' && ' ' !in line ==> RewriteLine(line) == line + "_"
  {
    if line[0] == '>' {
      Text.SplitHead(line, ' ');
    }
  }

  /** The text written for `lines`, one rewritten line after another. */
  function RewriteAll(lines: seq<string>): string
    requires forall i :: 0 <= i < |lines| ==> lines[i] != ""
  {
    if lines == [] then "" else RewriteAll(lines[..|lines| - 1]) + RewriteLine(lines[|lines| - 1])
  }

  /** `delete_blank` on the text of its input file: the text it writes to the "_delB" file. */
  method DeleteBlank(text: string) returns (out: string)
    ensures out == RewriteAll(ReadLines(text))
  {
    var lines := ReadLines(text);
    out := "";
    for i := 0 to |lines|
      invariant out == RewriteAll(lines[..i])
    {
      assert lines[..i + 1][..i] == lines[..i];
      out := out + RewriteLine(lines[i]);
    }
    assert lines[..|lines|] == lines;
  }

  /** Lines that are not headers come out as they went in. */
  lemma {:induction false} RewriteAllKeepsPlainLines(lines: seq<string>)
    requires forall i :: 0 <= i < |lines| ==> lines[i] != "" && lines[i][0] != '>'
    ensures RewriteAll(lines) == Text.Concat(lines)
  {
    if lines != [] {
      var init := lines[..|lines| - 1];
      RewriteAllKeepsPlainLines(init);
      assert lines == init + [lines[|lines| - 1]];
      Text.ConcatAppend(init, [lines[|lines| - 1]]);
    }
  }

  /** A file without header lines is written back unchanged. */
  lemma DeleteBlankWithoutHeaders(text: string)
    requires forall i :: 0 <= i < |ReadLines(text)| ==> ReadLines(text)[i][0] != '>'
    ensures RewriteAll(ReadLines(text)) == text
  {
    RewriteAllKeepsPlainLines(ReadLines(text));
  }

  lemma {:induction false} RewriteAllCons(line: string, lines: seq<string>)
    requires line != "" && forall i :: 0 <= i < |lines| ==> lines[i] != ""
    ensures RewriteAll([line] + lines) == RewriteLine(line) + RewriteAll(lines)
  {
    var all := [line] + lines;
    if lines == [] {
      assert all[..0] == [];
    } else {
      var init := lines[..|lines| - 1];
      var last := lines[|lines| - 1];
      RewriteAllCons(line, init);
      assert RewriteAll(all) == RewriteAll([line] + init) + RewriteLine(last) by {
        assert all[..|all| - 1] == [line] + init;
        assert all[|all| - 1] == last;
      }
      assert RewriteAll(lines) == RewriteAll(init) + RewriteLine(last);
    }
  }

  /** `readlines` of a text that starts with a complete line. */
  lemma ReadLinesCons(line: string, rest: string)
    requires '\n' !in line
    ensures ReadLines(line + "\n" + rest) == [line + "\n"] + ReadLines(rest)
  {
    var text := line + "\n" + rest;
    assert text[|line|] == '\n';
    assert forall j :: 0 <= j < |line| ==> text[j] == line[j];
    assert Text.IndexOf(text, '\n') == |line|;
    assert text[..|line| + 1] == line + "\n";
    assert text[|line| + 1..] == rest;
  }

  /** The file is rewritten line by line: the first line's rewrite, then the rest's. */
  lemma DeleteBlankLineByLine(line: string, rest: string)
    requires '\n' !in line
    ensures RewriteAll(ReadLines(line + "\n" + rest)) == RewriteLine(line + "\n") + RewriteAll(ReadLines(rest))
  {
    ReadLinesCons(line, rest);
    RewriteAllCons(line + "\n", ReadLines(rest));
  }

  /** The "_" of a header without a space lands at the start of the next line. */
  lemma DeleteBlankHeaderWithoutSpace(header: string, rest: string)
    requires header != "" && header[0] == '>' && ' ' !in header && '\n' !in header
    ensures RewriteAll(ReadLines(header + "\n" + rest)) == header + "\n" + "_" + RewriteAll(ReadLines(rest))
  {
    DeleteBlankLineByLine(header, rest);
    RewriteLineMeaning(header + "\n");
    assert (header + "\n")[0] == '>' && ' ' !in header + "\n";
  }
}
