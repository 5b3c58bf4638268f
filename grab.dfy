/** The body of grab_fastq.py's `grab_fastq` around its prompts: the query id of each query
    line, and for each FASTA file of a query the parse, the species name, the list of accessions
    and the interpretation of the line the user confirmed. */
module GrabFastq {
  import opened Common
  import Text
  import Seqs
  import Paths
  import Loader
  import Fasta
  import Selection

  /** `query_line.split(",")[0]`: the text of the line before its first comma. */
  function QueryId(line: string): (id: string)
    ensures id <= line && ',' !in id
    ensures |id| < |line| ==> line[|id|] == ','
  {
    Text.SplitHead(line, ',');
    Text.Split(line, ',')[0]
  }

  /** The accession list, built as the source does by one append per dictionary key. */
  method CollectAccessions(keys: seq<string>) returns (accessions: seq<string>)
    ensures accessions == Fasta.Accessions(keys)
  {
    accessions := [];
    for i := 0 to |keys|
      invariant accessions == Fasta.Accessions(keys[..i])
    {
      var elements := Text.Split(keys[i], ' ');
      assert keys[..i + 1][..i] == keys[..i];
      accessions := accessions + [Text.DropFirst(elements[0])];
    }
    assert keys[..|keys|] == keys;
  }

  /** What the source knows about one FASTA file once the user confirmed a line: the species
      (the file name without its extension), the listed accessions and the selection. */
  datatype Choice = Choice(species: string, accessions: seq<string>, selection: Selection.Selection)

  /** One file of the loop: `parse_fastq` may raise; when it returns None, `seq_dict.keys()`
      raises AttributeError; otherwise the accessions of the keys, in key order, and the
      selection that `typed` makes among them. */
  function FileChoice(disk: Loader.TextDisk, fastq: string, typed: string): Result<Choice> {
    match Fasta.ParseOutcome(disk, fastq)
    case Raise(e) => Raise(e)
    case Ok(parsed) =>
      if parsed.None? then Raise(AttributeError)
      else
        var accessions := Fasta.Accessions(parsed.value.keys);
        Ok(Choice(Paths.Stem(fastq), accessions, Selection.ChooseTokens(accessions, Selection.Tokens(accessions, typed))))
  }

  /** The loop body of `grab_fastq` for one file, `typed` being the confirmed line. */
  method GrabFile(disk: Loader.TextDisk, fastq: string, typed: string) returns (r: Result<Choice>)
    ensures r == FileChoice(disk, fastq, typed)
  {
    var seqDict := Fasta.ParseFastq(disk, fastq);
    if seqDict.Raise? {
      return Raise(seqDict.error);
    }
    var species := Paths.Stem(fastq);
    if seqDict.value.None? {
      return Raise(AttributeError);
    }
    var accessions := CollectAccessions(seqDict.value.value.keys);
    var selection := Selection.ChooseNumbers(accessions, typed);
    return Ok(Choice(species, accessions, selection));
  }

  /** The accessions offered for a file are, one per distinct header line and in the order the
      headers first appear, the first space-separated token of the header without its '>'. */
  lemma FileAccessions(disk: Loader.TextDisk, fastq: string, typed: string, lines: seq<string>)
    requires Loader.LoadText(disk, fastq) == Ok(Some(lines))
    requires FileChoice(disk, fastq, typed).Ok?
    ensures var c := FileChoice(disk, fastq, typed).value;
      && c.accessions == Fasta.Accessions(Seqs.FromKeys(Fasta.Headers(lines)))
      && forall i :: 0 <= i < |c.accessions| ==>
           exists h :: h in lines && Fasta.IsHeader(h) && c.accessions[i] == Text.DropFirst(Text.Split(h, ' ')[0])
  {
    var scanned := Fasta.ScanLines(lines);
    assert Fasta.ParseOutcome(disk, fastq) == Ok(Some(scanned.value.dict));
    Fasta.ParseContents(lines);
    var keys := Seqs.FromKeys(Fasta.Headers(lines));
    assert scanned.value.dict.keys == keys;
    var acc := FileChoice(disk, fastq, typed).value.accessions;
    assert acc == Fasta.Accessions(keys);
    forall i | 0 <= i < |acc|
      ensures exists h :: h in lines && Fasta.IsHeader(h) && acc[i] == Text.DropFirst(Text.Split(h, ' ')[0])
    {
      Fasta.HeadersAreHeaders(lines, keys[i]);
      assert acc[i] == Text.DropFirst(Text.Split(keys[i], ' ')[0]);
    }
  }

  /** A file that is not a list of header and sequence lines starting with a header stops the
      loop with the parse's exception; where it parses to nothing (an extension other than
      ".txt" or no decodable text), the loop stops with AttributeError. */
  lemma FileChoiceErrors(disk: Loader.TextDisk, fastq: string, typed: string)
    ensures Loader.LoadText(disk, fastq) == Ok(None) ==> FileChoice(disk, fastq, typed) == Raise(AttributeError)
    ensures Paths.Ext(fastq) != ".txt" ==> FileChoice(disk, fastq, typed) == Raise(AttributeError)
    ensures forall lines :: Loader.LoadText(disk, fastq) == Ok(Some(lines)) ==>
      (FileChoice(disk, fastq, typed).Ok? <==>
        (forall i :: 0 <= i < |lines| ==> lines[i] != "") && (lines == [] || Fasta.IsHeader(lines[0])))
  {
    forall lines | Loader.LoadText(disk, fastq) == Ok(Some(lines))
      ensures FileChoice(disk, fastq, typed).Ok? <==>
        (forall i :: 0 <= i < |lines| ==> lines[i] != "") && (lines == [] || Fasta.IsHeader(lines[0]))
    {
      Fasta.ParseErrors(lines);
    }
  }
}
