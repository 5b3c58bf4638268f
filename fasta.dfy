/** grab_fastq.py's `parse_fastq`: a FASTA file read as lines, each header line (starting with
    '>') opening an entry of an insertion-ordered dictionary whose value collects the sequence
    lines that follow it. Also the accession list derived from the dictionary's keys. */
module Fasta {
  import opened Common
  import Text
  import Seqs
  import Loader

  /** A Python dict from str to str: the keys in insertion order, and the value of each. */
  datatype Dict = Dict(keys: seq<string>, vals: map<string, string>)

  /** `d[key] = value`: a new key goes to the end; an existing one keeps its place. */
  function Assign(d: Dict, key: string, value: string): (r: Dict)
    ensures r.vals == d.vals[key := value]
    ensures key in d.keys ==> r.keys == d.keys
    ensures key !in d.keys ==> r.keys == d.keys + [key]
  {
    Dict(if key in d.keys then d.keys else d.keys + [key], d.vals[key := value])
  }

  predicate IsHeader(line: string) {
    line != "" && line[0] == '>'
  }

  /** `line.splitlines()[0]` for a non-empty line. */
  function FirstLine(line: string): string
    requires line != ""
  {
    Text.SplitLines(line)[0]
  }

  /** A line read by `load_input` has no line boundary, so `splitlines()[0]` is the line itself. */
  lemma FirstLineOfLine(line: string)
    requires line != "" && Text.NoBreak(line)
    ensures FirstLine(line) == line
  {
    Text.SplitLinesSingle(line);
  }

  /** The state of the parse loop: the dictionary so far and `former_seq`, the last header. */
  datatype Scan = Scan(dict: Dict, former: string)

  /** One iteration of the loop on `line`: `line[0]` raises IndexError on an empty line, and
      `seq_dict[former_seq] += ...` raises KeyError before any header was seen. */
  function Step(st: Scan, line: string): Result<Scan> {
    if line == "" then Raise(IndexError)
    else if line[0] == '>' then
      var key := FirstLine(line);
      Ok(Scan(Assign(st.dict, key, ""), key))
    else if st.former !in st.dict.vals then Raise(KeyError)
    else Ok(Scan(Assign(st.dict, st.former, st.dict.vals[st.former] + FirstLine(line)), st.former))
  }

  /** The loop run over `lines`, stopping at the first exception. */
  function ScanLines(lines: seq<string>): Result<Scan>
    decreases |lines|
  {
    if lines == [] then Ok(Scan(Dict([], map[]), ""))
    else
      var before := ScanLines(lines[..|lines| - 1]);
      if before.Raise? then before else Step(before.value, lines[|lines| - 1])
  }

  /** What `parse_fastq(path)` returns: None when `load_input` gives None (an extension other
      than ".txt" or an undecodable file), the dictionary, or the exception that escapes. */
  function ParseOutcome(disk: Loader.TextDisk, path: string): Result<Option<Dict>> {
    var loaded := Loader.LoadText(disk, path);
    if loaded.Raise? then Raise(loaded.error)
    else if loaded.value.None? then Ok(None)
    else
      var scanned := ScanLines(loaded.value.value);
      if scanned.Raise? then Raise(scanned.error) else Ok(Some(scanned.value.dict))
  }

  /** Once the loop has raised, the rest of the file does not matter. */
  lemma {:induction false} ScanStopsAtError(lines: seq<string>, i: nat)
    requires i <= |lines| && ScanLines(lines[..i]).Raise?
    ensures ScanLines(lines) == ScanLines(lines[..i])
  {
    if i < |lines| {
      var init := lines[..|lines| - 1];
      assert init[..i] == lines[..i];
      ScanStopsAtError(init, i);
    } else {
      assert lines[..i] == lines;
    }
  }

  /** `parse_fastq`, updating the dictionary and `former_seq` line by line. */
  method ParseFastq(disk: Loader.TextDisk, path: string) returns (r: Result<Option<Dict>>)
    ensures r == ParseOutcome(disk, path)
  {
    var loaded := Loader.LoadTextInput(disk, path);
    if loaded.Raise? {
      return Raise(loaded.error);
    }
    if loaded.value.None? {
      return Ok(None);
    }
    var lines := loaded.value.value;
    var seqDict := Dict([], map[]);
    var formerSeq := "";
    var i := 0;
    while i < |lines|
      invariant 0 <= i <= |lines|
      invariant ScanLines(lines[..i]) == Ok(Scan(seqDict, formerSeq))
    {
      var line := lines[i];
      assert lines[..i + 1][..i] == lines[..i];
      if line == "" {
        ScanStopsAtError(lines, i + 1);
        return Raise(IndexError);
      }
      if line[0] == '>' {
        seqDict := Assign(seqDict, FirstLine(line), "");
        formerSeq := FirstLine(line);
      } else {
        if formerSeq !in seqDict.vals {
          ScanStopsAtError(lines, i + 1);
          return Raise(KeyError);
        }
        seqDict := Assign(seqDict, formerSeq, seqDict.vals[formerSeq] + FirstLine(line));
      }
      i := i + 1;
    }
    assert lines[..i] == lines;
    return Ok(Some(seqDict));
  }

  // ---------------------------------------------------------------- what the parse computes

  /** The header lines of `lines`, in order. */
  function Headers(lines: seq<string>): seq<string> {
    if lines == [] then []
    else Headers(lines[..|lines| - 1]) + (if IsHeader(lines[|lines| - 1]) then [lines[|lines| - 1]] else [])
  }

  /** Every header line is listed by `Headers`, and only header lines are. */
  lemma {:induction false} HeadersMembers(lines: seq<string>)
    ensures forall h :: h in Headers(lines) <==> h in lines && IsHeader(h)
  {
    if lines != [] {
      var init := lines[..|lines| - 1];
      HeadersMembers(init);
      assert lines == init + [lines[|lines| - 1]];
    }
  }

  lemma {:induction false} HeadersAreHeaders(lines: seq<string>, h: string)
    requires h in Headers(lines)
    ensures h in lines && IsHeader(h)
  {
    var init := lines[..|lines| - 1];
    assert lines == init + [lines[|lines| - 1]];
    if h in Headers(init) {
      HeadersAreHeaders(init, h);
    }
  }

  lemma {:induction false} HeaderInHeaders(lines: seq<string>, i: nat)
    requires i < |lines| && IsHeader(lines[i])
    ensures lines[i] in Headers(lines)
  {
    var init := lines[..|lines| - 1];
    if i < |lines| - 1 {
      HeaderInHeaders(init, i);
      assert init[i] == lines[i];
    }
  }

  /** Position of the last header line, or -1. */
  function LastHeader(lines: seq<string>): (k: int)
    ensures -1 <= k < |lines|
    ensures k >= 0 ==> IsHeader(lines[k])
    ensures forall j :: k < j < |lines| ==> !IsHeader(lines[j])
  {
    if lines == [] then -1
    else if IsHeader(lines[|lines| - 1]) then |lines| - 1
    else LastHeader(lines[..|lines| - 1])
  }

  /** The first header line at or after `j`, or `|lines|`. */
  function NextHeader(lines: seq<string>, j: nat): (k: nat)
    requires j <= |lines|
    ensures j <= k <= |lines|
    ensures k < |lines| ==> IsHeader(lines[k])
    ensures forall i :: j <= i < k ==> !IsHeader(lines[i])
    decreases |lines| - j
  {
    if j == |lines| || IsHeader(lines[j]) then j else NextHeader(lines, j + 1)
  }

  /** The one index that satisfies `NextHeader`'s contract is the value of `NextHeader`. */
  lemma {:induction false} NextHeaderIs(lines: seq<string>, j: nat, k: nat)
    requires j <= k <= |lines|
    requires k < |lines| ==> IsHeader(lines[k])
    requires forall i :: j <= i < k ==> !IsHeader(lines[i])
    ensures NextHeader(lines, j) == k
    decreases k - j
  {
    if j < k {
      NextHeaderIs(lines, j + 1, k);
    }
  }

  /** The sequence text recorded for header `h`: the lines after its last occurrence, up to
      the next header line, concatenated. */
  function Block(lines: seq<string>, h: string): string
    requires h in lines
  {
    var p := Seqs.LastIndexOf(lines, h);
    Text.Concat(lines[p + 1..NextHeader(lines, p + 1)])
  }

  /** The loop's invariant over a prefix of the file: what the dictionary and `former_seq` are. */
  ghost predicate Describes(lines: seq<string>, st: Scan) {
    && st.dict.keys == Seqs.FromKeys(Headers(lines))
    && (forall k :: k in st.dict.vals ==> k in st.dict.keys)
    && (forall i :: 0 <= i < |st.dict.keys| ==>
          && st.dict.keys[i] in st.dict.vals
          && st.dict.keys[i] in lines
          && st.dict.vals[st.dict.keys[i]] == Block(lines, st.dict.keys[i]))
    && (lines == [] ==> st.former == "")
    && (lines != [] ==> LastHeader(lines) >= 0 && st.former == lines[LastHeader(lines)])
  }

  /** A header line closes every open block and opens an empty one for itself. */
  lemma {:induction false} BlockAppendHeader(lines: seq<string>, line: string, h: string)
    requires IsHeader(line) && h in lines + [line]
    ensures h == line ==> Block(lines + [line], h) == ""
    ensures h != line ==> h in lines && Block(lines + [line], h) == Block(lines, h)
  {
    var n := |lines|;
    Seqs.LastIndexOfAppend(lines, line, h);
    if h == line {
      assert Block(lines + [line], h) == Text.Concat((lines + [line])[n + 1..NextHeader(lines + [line], n + 1)]);
    } else {
      var p := Seqs.LastIndexOf(lines, h);
      var e := NextHeader(lines, p + 1);
      NextHeaderAppend(lines, line, p + 1);
      Seqs.SliceOfAppend(lines, line, p + 1, e);
    }
  }

  /** A sequence line extends the block of the last header... */
  lemma {:induction false} BlockAppendToLast(lines: seq<string>, line: string)
    requires !IsHeader(line) && LastHeader(lines) >= 0
    ensures Block(lines + [line], lines[LastHeader(lines)]) == Block(lines, lines[LastHeader(lines)]) + line
  {
    var n := |lines|;
    var q := LastHeader(lines);
    var h := lines[q];
    Seqs.LastIndexOfAppend(lines, line, h);
    var p := Seqs.LastIndexOf(lines, h);
    assert p == q by {
      assert q <= p;
      assert IsHeader(lines[p]);
    }
    NextHeaderIs(lines, p + 1, n);
    NextHeaderAppend(lines, line, p + 1);
    Seqs.SliceOfAppend(lines, line, p + 1, n);
    Text.ConcatAppend(lines[p + 1..n], [line]);
    assert Text.Concat([line]) == line;
  }

  /** ...and leaves the blocks of the other headers alone. */
  lemma {:induction false} BlockAppendToOther(lines: seq<string>, line: string, h: string)
    requires !IsHeader(line) && h in lines && IsHeader(h) && LastHeader(lines) >= 0 && h != lines[LastHeader(lines)]
    ensures Block(lines + [line], h) == Block(lines, h)
  {
    var q := LastHeader(lines);
    Seqs.LastIndexOfAppend(lines, line, h);
    var p := Seqs.LastIndexOf(lines, h);
    assert p < q by {
      assert IsHeader(lines[p]);
      assert p != q;
    }
    var e := NextHeader(lines, p + 1);
    assert e <= q;
    NextHeaderAppend(lines, line, p + 1);
    Seqs.SliceOfAppend(lines, line, p + 1, e);
  }

  /** The next header in a longer file: the one found in the prefix, else the new line if it is
      a header, else none. */
  lemma {:induction false} NextHeaderAppend(lines: seq<string>, line: string, j: nat)
    requires j <= |lines|
    ensures NextHeader(lines + [line], j) ==
      if NextHeader(lines, j) < |lines| || IsHeader(line) then NextHeader(lines, j) else |lines| + 1
    decreases |lines| - j
  {
    var all := lines + [line];
    if j == |lines| {
      assert all[j] == line;
      if !IsHeader(line) {
        assert NextHeader(all, j + 1) == j + 1;
      }
    } else {
      assert all[j] == lines[j];
      if !IsHeader(lines[j]) {
        NextHeaderAppend(lines, line, j + 1);
      }
    }
  }

  /** Header lines of a longer file: those of the prefix, then the new line if it is one. */
  lemma {:induction false} HeadersAppend(lines: seq<string>, line: string)
    ensures Headers(lines + [line]) == Headers(lines) + (if IsHeader(line) then [line] else [])
  {
    assert (lines + [line])[..|lines|] == lines;
  }

  lemma {:induction false} StepHeader(lines: seq<string>, st: Scan, line: string)
    requires Describes(lines, st) && IsHeader(line) && Text.NoBreak(line)
    ensures Step(st, line).Ok? && Describes(lines + [line], Step(st, line).value)
  {
    FirstLineOfLine(line);
    var all := lines + [line];
    var next := Step(st, line).value;
    assert next == Scan(Assign(st.dict, line, ""), line);
    HeadersAppend(lines, line);
    Seqs.FromKeysAppend(Headers(lines), line);
    assert LastHeader(all) == |lines|;
    var keys := next.dict.keys;
    forall i | 0 <= i < |keys|
      ensures keys[i] in next.dict.vals && keys[i] in all && next.dict.vals[keys[i]] == Block(all, keys[i])
    {
      if keys[i] != line {
        assert i < |st.dict.keys| && keys[i] == st.dict.keys[i];
      }
      BlockAppendHeader(lines, line, keys[i]);
    }
  }

  /** The last header is a key: its position among the keys. */
  lemma {:induction false} LastHeaderIsKey(lines: seq<string>, keys: seq<string>) returns (j: nat)
    requires keys == Seqs.FromKeys(Headers(lines)) && LastHeader(lines) >= 0
    ensures j < |keys| && keys[j] == lines[LastHeader(lines)]
  {
    HeaderInHeaders(lines, LastHeader(lines));
    Seqs.FromKeysHas(Headers(lines), lines[LastHeader(lines)]);
    j :| j < |keys| && keys[j] == lines[LastHeader(lines)];
  }

  lemma {:induction false} StepSequence(lines: seq<string>, st: Scan, line: string)
    requires Describes(lines, st) && lines != [] && line != "" && !IsHeader(line) && Text.NoBreak(line)
    ensures Step(st, line).Ok? && Describes(lines + [line], Step(st, line).value)
  {
    FirstLineOfLine(line);
    var all := lines + [line];
    var n := |lines|;
    var q := LastHeader(lines);
    var f := st.former;
    var keys := st.dict.keys;
    HeadersAppend(lines, line);
    var j := LastHeaderIsKey(lines, keys);
    assert f in st.dict.vals && keys[j] == f;
    assert Headers(lines) + [] == Headers(lines);
    assert Headers(all) == Headers(lines);
    var next := Step(st, line).value;
    assert next == Scan(Assign(st.dict, f, st.dict.vals[f] + line), f);
    assert f in keys;
    assert next.dict.keys == keys;
    assert all[..n] == lines;
    assert LastHeader(all) == q;
    BlockAppendToLast(lines, line);
    forall i | 0 <= i < |keys|
      ensures keys[i] in next.dict.vals && keys[i] in all && next.dict.vals[keys[i]] == Block(all, keys[i])
    {
      if keys[i] != f {
        HeadersAreHeaders(lines, keys[i]);
        BlockAppendToOther(lines, line, keys[i]);
      }
    }
  }

  /** The loop invariant holds over every prefix that parses. */
  lemma {:induction false} ScanDescribes(lines: seq<string>)
    requires forall i :: 0 <= i < |lines| ==> Text.NoBreak(lines[i])
    ensures ScanLines(lines).Ok? ==> Describes(lines, ScanLines(lines).value)
  {
    if lines != [] {
      var init := lines[..|lines| - 1];
      var line := lines[|lines| - 1];
      Seqs.InitLast(lines);
      ScanDescribes(init);
      var before := ScanLines(init);
      if before.Ok? && line != "" && (IsHeader(line) || init != []) {
        assert ScanLines(lines) == Step(before.value, line);
        if IsHeader(line) {
          StepHeader(init, before.value, line);
        } else {
          StepSequence(init, before.value, line);
        }
      }
    }
  }

  /** The keys are exactly the header lines, each once, in the order they first appear; the
      value of each is the concatenation of the sequence lines after its last occurrence up to
      the next header, so a repeated header keeps only its last block. */
  lemma ParseContents(lines: seq<string>)
    requires forall i :: 0 <= i < |lines| ==> Text.NoBreak(lines[i])
    requires ScanLines(lines).Ok?
    ensures ScanLines(lines).value.dict.keys == Seqs.FromKeys(Headers(lines))
    ensures forall h :: h in ScanLines(lines).value.dict.vals <==> h in lines && IsHeader(h)
    ensures forall h :: h in lines && IsHeader(h) ==> ScanLines(lines).value.dict.vals[h] == Block(lines, h)
  {
    ScanDescribes(lines);
    var st := ScanLines(lines).value;
    forall h ensures h in st.dict.vals <==> h in lines && IsHeader(h) {
      DescribedKey(lines, st, h);
    }
    forall h | h in lines && IsHeader(h) ensures st.dict.vals[h] == Block(lines, h) {
      DescribedKey(lines, st, h);
    }
  }

  /** What the invariant says about one header: it is a key exactly when it is a header line
      of the file, and its value is then its block. */
  lemma DescribedKey(lines: seq<string>, st: Scan, h: string)
    requires Describes(lines, st)
    ensures h in st.dict.vals <==> h in lines && IsHeader(h)
    ensures h in st.dict.vals ==> h in lines && st.dict.vals[h] == Block(lines, h)
  {
    HeadersMembers(lines);
    Seqs.FromKeysHas(Headers(lines), h);
    if h in st.dict.keys {
      var j :| 0 <= j < |st.dict.keys| && st.dict.keys[j] == h;
    }
  }

  /** The file parses exactly when every line is non-empty and the first line is a header; a
      sequence line before any header raises KeyError, and otherwise an empty line raises
      IndexError. */
  lemma {:induction false} ParseErrors(lines: seq<string>)
    ensures ScanLines(lines).Ok? <==>
      (forall i :: 0 <= i < |lines| ==> lines[i] != "") && (lines == [] || IsHeader(lines[0]))
    ensures ScanLines(lines) == Raise(KeyError) <==> lines != [] && lines[0] != "" && !IsHeader(lines[0])
    ensures ScanLines(lines).Raise? && ScanLines(lines).error != KeyError ==> ScanLines(lines).error == IndexError
    ensures ScanLines(lines).Ok? && lines != [] ==> ScanLines(lines).value.former in ScanLines(lines).value.dict.vals
  {
    if lines != [] {
      var init := lines[..|lines| - 1];
      var line := lines[|lines| - 1];
      ParseErrors(init);
      assert lines == init + [line];
      assert init != [] ==> init[0] == lines[0];
      forall i | 0 <= i < |init| ensures init[i] == lines[i] {
      }
    }
  }

  /** `elements[0][1:]` of `info.split(" ")` for every key: the first space-separated token of
      each header without its first character (the '>'). */
  function Accessions(keys: seq<string>): (acc: seq<string>)
    ensures |acc| == |keys|
    ensures forall i :: 0 <= i < |keys| ==> acc[i] == Text.DropFirst(Text.Split(keys[i], ' ')[0])
  {
    seq(|keys|, i requires 0 <= i < |keys| => Text.DropFirst(Text.Split(keys[i], ' ')[0]))
  }

  /** A header `>ID description` yields the accession `ID`. */
  lemma AccessionOfHeader(id: string, description: string)
    requires ' ' !in id
    ensures Accessions([">" + id + " " + description]) == [id]
  {
    var h := ">" + id + " " + description;
    assert h[|id| + 1] == ' ';
    forall i | 0 <= i < |id| + 1 ensures h[i] != ' ' {
      if i > 0 {
        assert h[i] == id[i - 1];
      }
    }
    assert Text.IndexOf(h, ' ') == |id| + 1;
    Text.SplitHead(h, ' ');
    assert h[..|id| + 1] == ">" + id;
    assert (">" + id)[1..] == id;
  }
}
