/** `load_input`: read a list file as lines, trying the text encodings utf-8, shift-jis and
    cp932 in this order. The byte-level decoding is an oracle: a file is represented by the text
    each encoding decodes it to, and an encoding absent from that map raises UnicodeDecodeError. */
module Loader {
  import opened Common
  import Text
  import Paths

  datatype Encoding = Utf8 | ShiftJis | Cp932

  /** The order in which the encodings are tried. */
  const Encodings: seq<Encoding> := [Utf8, ShiftJis, Cp932]

  /** An input file: the text each successful encoding decodes its bytes to. */
  type TextFile = map<Encoding, string>

  /** The text files reachable by path. */
  type TextDisk = map<string, TextFile>

  /** Encoding number `k` is the first of the list that decodes `file`. */
  predicate FirstDecodes(file: TextFile, k: nat) {
    k < |Encodings| && Encodings[k] in file && forall j :: 0 <= j < k ==> Encodings[j] !in file
  }

  predicate Undecodable(file: TextFile) {
    forall k :: 0 <= k < |Encodings| ==> Encodings[k] !in file
  }

  /** The text of the first encoding from number `k` on that decodes `file`. */
  function DecodeFrom(file: TextFile, k: nat): Option<string>
    decreases |Encodings| - k
  {
    if k >= |Encodings| then None
    else if Encodings[k] in file then Some(file[Encodings[k]])
    else DecodeFrom(file, k + 1)
  }

  /** The text of the first encoding that decodes `file`, None when none does. */
  function Decoded(file: TextFile): (text: Option<string>)
    ensures text.None? <==> Undecodable(file)
    ensures text.Some? ==> exists k: nat :: FirstDecodes(file, k) && text.value == file[Encodings[k]]
  {
    assert DecodeFrom(file, 3) == None;
    assert Encodings[0] == Utf8 && Encodings[1] == ShiftJis && Encodings[2] == Cp932;
    DecodeFrom(file, 0)
  }

  /** The loop over the encodings, leaving at the first that decodes the file. */
  method FirstDecoding(file: TextFile) returns (text: Option<string>)
    ensures text == Decoded(file)
  {
    var k := 0;
    while k < |Encodings|
      invariant 0 <= k <= |Encodings|
      invariant DecodeFrom(file, k) == Decoded(file)
    {
      if Encodings[k] in file {
        return Some(file[Encodings[k]]);
      }
      k := k + 1;
    }
    return None;
  }

  /** What utils.py's `load_input` returns: opening a missing file raises FileNotFoundError (not
      a decoding error, so the loop does not catch it); otherwise the lines of the first text
      that decodes, or None when no encoding decodes the file. */
  function Load(disk: TextDisk, path: string): (r: Result<Option<seq<string>>>)
    ensures path !in disk <==> r == Raise(FileNotFoundError)
    ensures r.Ok? && r.value.None? <==> path in disk && Undecodable(disk[path])
    ensures r.Ok? && r.value.Some? ==>
      exists k: nat :: FirstDecodes(disk[path], k) && r.value.value == Text.SplitLines(disk[path][Encodings[k]])
  {
    if path !in disk then Raise(FileNotFoundError)
    else
      var text := Decoded(disk[path]);
      if text.None? then Ok(None) else Ok(Some(Text.SplitLines(text.value)))
  }

  /** What the `load_input` of grab_fastq.py, auto_blast.py and auto_clustalw.py returns: None
      without opening anything when the extension is not ".txt"; otherwise as `Load`. */
  function LoadText(disk: TextDisk, path: string): (r: Result<Option<seq<string>>>)
    ensures Paths.Ext(path) != ".txt" ==> r == Ok(None)
    ensures Paths.Ext(path) == ".txt" ==> r == Load(disk, path)
  {
    if Paths.Ext(path) != ".txt" then Ok(None) else Load(disk, path)
  }

  /** utils.py's `load_input`. */
  method LoadInput(disk: TextDisk, path: string) returns (r: Result<Option<seq<string>>>)
    ensures r == Load(disk, path)
  {
    if path !in disk {
      return Raise(FileNotFoundError);
    }
    var text := FirstDecoding(disk[path]);
    if text.None? {
      return Ok(None);
    }
    return Ok(Some(Text.SplitLines(text.value)));
  }

  /** The `load_input` with the extension check. */
  method LoadTextInput(disk: TextDisk, path: string) returns (r: Result<Option<seq<string>>>)
    ensures r == LoadText(disk, path)
  {
    if Paths.Ext(path) != ".txt" {
      return Ok(None);
    }
    r := LoadInput(disk, path);
  }

  /** A file whose first decoding is its lines each followed by "\n" loads as exactly those
      lines. */
  lemma LoadRoundTrip(disk: TextDisk, path: string, lines: seq<string>)
    requires path in disk && forall i :: 0 <= i < |lines| ==> Text.NoBreak(lines[i])
    requires Decoded(disk[path]) == Some(Text.Concat(Text.Terminated(lines)))
    ensures Load(disk, path) == Ok(Some(lines))
  {
    var text := Text.Concat(Text.Terminated(lines));
    Text.SplitLinesOfTerminated(lines, "");
    assert text + "" == text;
    assert Text.SplitLines("") == [];
    assert lines + [] == lines;
  }
}
