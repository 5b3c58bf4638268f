/** The choice of sequences in grab_fastq.py: `search_accessions`, which finds the one accession
    that contains a typed fragment, and the interpretation of the typed line inside `grab_fastq`
    (an accession fragment, a listed number `nK`, `all`, and a trailing `ex`). The prompts
    themselves are not modelled: where the source would ask again, the model says so. */
module Selection {
  import opened Common
  import Text

  // ---------------------------------------------------------------- search_accessions

  /** The positions of the accessions that contain `query`, in ascending order. */
  function Matches(acc: seq<string>, query: string): (m: seq<nat>)
    ensures forall k :: 0 <= k < |m| ==> m[k] < |acc| && Text.Contains(acc[m[k]], query)
    ensures forall i :: 0 <= i < |acc| && Text.Contains(acc[i], query) ==> i in m
    ensures forall k, l :: 0 <= k < l < |m| ==> m[k] < m[l]
  {
    if acc == [] then []
    else
      var init := Matches(acc[..|acc| - 1], query);
      init + (if Text.Contains(acc[|acc| - 1], query) then [|acc| - 1] else [])
  }

  /** The index `search_accessions` returns: defined exactly when one accession contains the
      query, and then it is that accession's index (the converse is `NoUniqueMatch`). */
  function UniqueMatch(acc: seq<string>, query: string): (r: Option<nat>)
    ensures r.Some? ==>
      && r.value < |acc| && Text.Contains(acc[r.value], query)
      && forall j :: 0 <= j < |acc| && Text.Contains(acc[j], query) ==> j == r.value
  {
    var m := Matches(acc, query);
    if |m| == 1 then Some(m[0]) else None
  }

  /** Where `search_accessions` returns None, no accession is the only one containing the query:
      either none does, or another one does too. */
  lemma NoUniqueMatch(acc: seq<string>, query: string, i: nat)
    requires UniqueMatch(acc, query).None?
    requires i < |acc| && Text.Contains(acc[i], query)
    ensures exists j :: 0 <= j < |acc| && j != i && Text.Contains(acc[j], query)
  {
    var m := Matches(acc, query);
    assert i in m;
    assert |m| >= 2;
    if m[0] == i {
      assert m[1] != i && Text.Contains(acc[m[1]], query);
    } else {
      assert Text.Contains(acc[m[0]], query);
    }
  }

  /** The first loop of `search_accessions`: the accessions containing the query, in order. */
  method CollectChoices(acc: seq<string>, query: string) returns (choices: seq<string>)
    ensures |choices| == |Matches(acc, query)|
    ensures forall k :: 0 <= k < |choices| ==> choices[k] == acc[Matches(acc, query)[k]]
  {
    choices := [];
    for i := 0 to |acc|
      invariant |choices| == |Matches(acc[..i], query)|
      invariant forall k :: 0 <= k < |choices| ==> choices[k] == acc[Matches(acc[..i], query)[k]]
    {
      assert acc[..i + 1][..i] == acc[..i];
      if Text.Contains(acc[i], query) {
        choices := choices + [acc[i]];
      }
    }
    assert acc[..|acc|] == acc;
  }

  /** `search_accessions`: collect the accessions containing the query; unless there is exactly
      one, return None; otherwise return the first index holding that accession. */
  method SearchAccessions(acc: seq<string>, query: string) returns (r: Option<nat>)
    ensures r == UniqueMatch(acc, query)
  {
    var choices := CollectChoices(acc, query);
    if |choices| != 1 {
      return None;
    }
    ghost var m0 := Matches(acc, query)[0];
    var i := 0;
    while acc[i] != choices[0]
      invariant 0 <= i <= m0
      decreases m0 - i
    {
      i := i + 1;
    }
    assert Text.Contains(acc[i], query);
    return Some(i);
  }

  // ---------------------------------------------------------------- the typed numbers

  /** Where a number typed with `n` is out of range, the source starts its re-prompt loop from
      `n10000000`. */
  const Sentinel: int := 10000000

  /** What one typed token contributes. */
  datatype Pick =
    | Number(n: int)      // appended to the chosen numbers
    | Ask                 // the source would prompt again
    | Invalid             // `int()` raises ValueError

  /** What the interpretation of a typed line ends in. */
  datatype Selection =
    | Picked(nums: seq<int>)       // the chosen numbers, in the order typed
    | Complemented(kept: set<int>) // a trailing `ex`: the positions not chosen before it
    | NeedsPrompt(token: string)   // the source prompts for a replacement of this token
    | Failed(error: PyError)

  /** The tokens the loop runs over: the typed line split on single spaces, or the accessions
      themselves when the first token is `all`. */
  function Tokens(acc: seq<string>, typed: string): (tokens: seq<string>)
    ensures Text.Split(typed, ' ')[0] == "all" ==> tokens == acc
    ensures Text.Split(typed, ' ')[0] != "all" ==> tokens == Text.Split(typed, ' ')
  {
    var line := Text.Split(typed, ' ');
    if line[0] == "all" then acc else line
  }

  /** One token: without an `n` it is searched for among the accessions (a 0-based index);
      with an `n` the rest is read as a listed number (1-based) and kept if it does not exceed
      the number of accessions. An out-of-range number, as written, enters the re-prompt loop
      with the sentinel, whose condition lets the sentinel through unless there are at least
      that many accessions; `corrected` asks again instead. */
  function TokenPick(acc: seq<string>, num: string, corrected: bool): Pick {
    if 'n' !in num then
      match UniqueMatch(acc, num)
      case None => Ask
      case Some(i) => Number(i)
    else
      match Text.ParseInt(num[1..])
      case None => Invalid
      case Some(v) =>
        if |acc| >= v then Number(v)
        else if corrected || |acc| >= Sentinel then Ask
        else Number(Sentinel)
  }

  /** The number of tokens that contribute a pick: all but a trailing `ex`. */
  function Body(tokens: seq<string>): (m: nat)
    ensures m <= |tokens| && |tokens| - m <= 1
    ensures m < |tokens| <==> |tokens| > 0 && tokens[|tokens| - 1] == "ex"
  {
    if |tokens| > 0 && tokens[|tokens| - 1] == "ex" then |tokens| - 1 else |tokens|
  }

  /** What each token contributes, in order. */
  function Picks(acc: seq<string>, tokens: seq<string>, corrected: bool): (picks: seq<Pick>)
    ensures |picks| == |tokens|
    ensures forall k :: 0 <= k < |tokens| ==> picks[k] == TokenPick(acc, tokens[k], corrected)
  {
    seq(|tokens|, k requires 0 <= k < |tokens| => TokenPick(acc, tokens[k], corrected))
  }

  /** The loop over the tokens from position `i`, with `chosen` picked so far, `picks[k]` being
      what `tokens[k]` contributes and `count` the number of accessions. */
  function ChooseFrom(count: nat, tokens: seq<string>, picks: seq<Pick>, i: nat, chosen: seq<int>): Selection
    requires |picks| == |tokens| && i <= |tokens|
    decreases |tokens| - i
  {
    if i == |tokens| then Picked(chosen)
    else if tokens[i] == "ex" && i + 1 == |tokens| then
      Complemented(set j | 0 <= j < count && j !in chosen)
    else
      match picks[i]
      case Number(n) => ChooseFrom(count, tokens, picks, i + 1, chosen + [n])
      case Ask => NeedsPrompt(tokens[i])
      case Invalid => Failed(ValueError)
  }

  /** The selection of a list of tokens, as the source computes it. */
  function ChooseTokens(acc: seq<string>, tokens: seq<string>): Selection {
    ChooseFrom(|acc|, tokens, Picks(acc, tokens, false), 0, [])
  }

  /** The selection with out-of-range numbers sent back to the prompt. */
  function ChooseTokensCorrected(acc: seq<string>, tokens: seq<string>): Selection {
    ChooseFrom(|acc|, tokens, Picks(acc, tokens, true), 0, [])
  }

  /** One pass of the token loop: search for a fragment, or read a listed number and check it
      against the number of accessions as written. */
  method PickToken(acc: seq<string>, num: string) returns (p: Pick)
    ensures p == TokenPick(acc, num, false)
  {
    if 'n' !in num {
      var choice := SearchAccessions(acc, num);
      if choice.None? {
        return Ask;
      }
      return Number(choice.value);
    }
    var value := Text.ParseInt(num[1..]);
    if value.None? {
      return Invalid;
    }
    if |acc| >= value.value {
      return Number(value.value);
    }
    var n := Sentinel;
    if |acc| >= n {
      return Ask;
    }
    return Number(n);
  }

  /** The interpretation of the confirmed typed line. */
  method ChooseNumbers(acc: seq<string>, typed: string) returns (s: Selection)
    ensures s == ChooseTokens(acc, Tokens(acc, typed))
  {
    var inputNum := Text.Split(typed, ' ');
    if inputNum[0] == "all" {
      inputNum := acc;
    }
    ghost var picks := Picks(acc, inputNum, false);
    ghost var target := ChooseFrom(|acc|, inputNum, picks, 0, []);
    assert target == ChooseTokens(acc, Tokens(acc, typed));
    var choosedNums: seq<int> := [];
    var i := 0;
    while i < |inputNum|
      invariant 0 <= i <= |inputNum|
      invariant ChooseFrom(|acc|, inputNum, picks, i, choosedNums) == target
    {
      var num := inputNum[i];
      if num == "ex" && i + 1 == |inputNum| {
        return Complemented(set j | 0 <= j < |acc| && j !in choosedNums);
      }
      var pick := PickToken(acc, num);
      assert picks[i] == pick;
      match pick {
        case Ask => return NeedsPrompt(num);
        case Invalid => return Failed(ValueError);
        case Number(n) => choosedNums := choosedNums + [n];
      }
      i := i + 1;
    }
    return Picked(choosedNums);
  }

  // ---------------------------------------------------------------- what a selection means

  /** Every token in `[lo, hi)` picks a number. */
  predicate AllPick(picks: seq<Pick>, lo: nat, hi: nat)
    requires lo <= hi <= |picks|
  {
    forall k :: lo <= k < hi ==> picks[k].Number?
  }

  /** Some token in `[lo, hi)` picks the number `j`. */
  predicate Named(picks: seq<Pick>, lo: nat, hi: nat, j: int)
    requires lo <= hi <= |picks|
  {
    exists k :: lo <= k < hi && picks[k] == Number(j)
  }

  /** Token `k` is the first from `lo` on that does not pick a number, and it gives `p`. */
  predicate FirstStop(picks: seq<Pick>, lo: nat, k: nat, p: Pick)
  {
    lo <= k < |picks| && picks[k] == p && AllPick(picks, lo, k)
  }

  lemma NamedCons(picks: seq<Pick>, i: nat, k: nat, j: int)
    requires i < k <= |picks|
    ensures Named(picks, i, k, j) <==> picks[i] == Number(j) || Named(picks, i + 1, k, j)
  {
    if Named(picks, i, k, j) && picks[i] != Number(j) {
      var l :| i <= l < k && picks[l] == Number(j);
      assert i + 1 <= l;
    }
  }

  /** The loop from position `i` ends in numbers (a list or a complement) exactly when every
      token before a trailing `ex` picks one. */
  lemma {:induction false} ChooseFromNumbers(count: nat, tokens: seq<string>, picks: seq<Pick>, i: nat, chosen: seq<int>)
    requires |picks| == |tokens| && i <= Body(tokens)
    ensures var r := ChooseFrom(count, tokens, picks, i, chosen); var m := Body(tokens);
      && ((r.Picked? || r.Complemented?) <==> AllPick(picks, i, m))
      && (r.Picked? ==> m == |tokens|)
      && (r.Complemented? ==> m < |tokens|)
      && (r.Failed? ==> r.error == ValueError)
    decreases |tokens| - i
  {
    var m := Body(tokens);
    if i < m {
      assert !(tokens[i] == "ex" && i + 1 == |tokens|);
      if picks[i].Number? {
        ChooseFromNumbers(count, tokens, picks, i + 1, chosen + [picks[i].n]);
      }
    }
  }

  /** Otherwise the first token from `i` that does not pick a number decides between asking
      again for that token and failing. */
  lemma {:induction false} ChooseFromStops(count: nat, tokens: seq<string>, picks: seq<Pick>, i: nat, chosen: seq<int>)
    requires |picks| == |tokens| && i <= Body(tokens)
    ensures var r := ChooseFrom(count, tokens, picks, i, chosen); var m := Body(tokens);
      && (r.NeedsPrompt? ==> exists k: nat :: k < m && FirstStop(picks, i, k, Ask) && r.token == tokens[k])
      && (r.Failed? ==> exists k: nat :: k < m && FirstStop(picks, i, k, Invalid))
    decreases |tokens| - i
  {
    var m := Body(tokens);
    if i == m {
      return;
    }
    var r := ChooseFrom(count, tokens, picks, i, chosen);
    assert !(tokens[i] == "ex" && i + 1 == |tokens|);
    if !picks[i].Number? {
      assert FirstStop(picks, i, i, picks[i]);
      return;
    }
    var chosen' := chosen + [picks[i].n];
    ChooseFromStops(count, tokens, picks, i + 1, chosen');
    assert r == ChooseFrom(count, tokens, picks, i + 1, chosen');
    if r.NeedsPrompt? {
      var k: nat :| k < m && FirstStop(picks, i + 1, k, Ask) && r.token == tokens[k];
      assert FirstStop(picks, i, k, Ask);
    } else if r.Failed? {
      var k: nat :| k < m && FirstStop(picks, i + 1, k, Invalid);
      assert FirstStop(picks, i, k, Invalid);
    }
  }

  /** A list the loop from position `i` ends in is `chosen` followed by the number each later
      token picks, in order. */
  lemma {:induction false} ChooseFromPicked(count: nat, tokens: seq<string>, picks: seq<Pick>, i: nat, chosen: seq<int>)
    requires |picks| == |tokens| && i <= |tokens|
    ensures var r := ChooseFrom(count, tokens, picks, i, chosen);
      r.Picked? ==>
        && |r.nums| == |chosen| + |tokens| - i && r.nums[..|chosen|] == chosen
        && forall k :: i <= k < |tokens| ==> picks[k] == Number(r.nums[|chosen| + k - i])
    decreases |tokens| - i
  {
    var r := ChooseFrom(count, tokens, picks, i, chosen);
    if i == |tokens| || (tokens[i] == "ex" && i + 1 == |tokens|) {
      return;
    }
    if picks[i].Number? {
      var chosen' := chosen + [picks[i].n];
      ChooseFromPicked(count, tokens, picks, i + 1, chosen');
      assert r == ChooseFrom(count, tokens, picks, i + 1, chosen');
      if r.Picked? {
        assert r.nums[..|chosen|] == r.nums[..|chosen'|][..|chosen|];
        assert r.nums[|chosen|] == chosen'[|chosen|];
        forall k | i <= k < |tokens| ensures picks[k] == Number(r.nums[|chosen| + k - i]) {
          if k > i {
            assert |chosen'| + k - (i + 1) == |chosen| + k - i;
          }
        }
      }
    }
  }

  /** A complement the loop from position `i` ends in keeps the positions that are neither in
      `chosen` nor picked by a later token before the trailing `ex`. */
  lemma {:induction false} ChooseFromComplemented(count: nat, tokens: seq<string>, picks: seq<Pick>, i: nat, chosen: seq<int>)
    requires |picks| == |tokens| && i <= Body(tokens)
    ensures var r := ChooseFrom(count, tokens, picks, i, chosen); var m := Body(tokens);
      r.Complemented? ==>
        forall j :: j in r.kept <==> 0 <= j < count && j !in chosen && !Named(picks, i, m, j)
    decreases |tokens| - i
  {
    var m := Body(tokens);
    var r := ChooseFrom(count, tokens, picks, i, chosen);
    if i == m {
      assert forall j :: !Named(picks, i, m, j);
      return;
    }
    assert !(tokens[i] == "ex" && i + 1 == |tokens|);
    if picks[i].Number? {
      var chosen' := chosen + [picks[i].n];
      ChooseFromComplemented(count, tokens, picks, i + 1, chosen');
      assert r == ChooseFrom(count, tokens, picks, i + 1, chosen');
      if r.Complemented? {
        forall j ensures j in r.kept <==> 0 <= j < count && j !in chosen && !Named(picks, i, m, j) {
          NamedCons(picks, i, m, j);
          assert j in chosen' <==> j in chosen || j == picks[i].n;
        }
      }
    }
  }

  /** The whole selection of a list of tokens, described without the loop: when every token
      before a trailing `ex` picks a number, the result is those numbers, or, after `ex`, the
      positions none of them names; otherwise the first token that does not pick decides. */
  lemma ChooseMeaning(acc: seq<string>, tokens: seq<string>, corrected: bool)
    ensures var picks := Picks(acc, tokens, corrected);
      var r := ChooseFrom(|acc|, tokens, picks, 0, []); var m := Body(tokens);
      && ((r.Picked? || r.Complemented?) <==> AllPick(picks, 0, m))
      && (r.Picked? <==> m == |tokens| && AllPick(picks, 0, m))
      && (r.Picked? ==>
            |r.nums| == |tokens| && forall k :: 0 <= k < m ==> TokenPick(acc, tokens[k], corrected) == Number(r.nums[k]))
      && (r.Complemented? ==> forall j :: j in r.kept <==> 0 <= j < |acc| && !Named(picks, 0, m, j))
      && (r.NeedsPrompt? ==> exists k: nat :: k < m && FirstStop(picks, 0, k, Ask) && r.token == tokens[k])
      && (r.Failed? ==> r.error == ValueError && exists k: nat :: k < m && FirstStop(picks, 0, k, Invalid))
  {
    var picks := Picks(acc, tokens, corrected);
    ChooseFromNumbers(|acc|, tokens, picks, 0, []);
    ChooseFromStops(|acc|, tokens, picks, 0, []);
    ChooseFromPicked(|acc|, tokens, picks, 0, []);
    ChooseFromComplemented(|acc|, tokens, picks, 0, []);
  }

  /** As written, a search token yields a 0-based position but `nK` the 1-based listed number,
      while the `ex` complement is taken over 0-based positions: `n1 ex`, meant as "all but the
      first listed accession", keeps the first and drops the second. */
  lemma ExAfterListedNumber(acc: seq<string>)
    requires |acc| >= 2
    ensures ChooseTokens(acc, ["n1", "ex"]).Complemented?
    ensures forall j :: j in ChooseTokens(acc, ["n1", "ex"]).kept <==> 0 <= j < |acc| && j != 1
  {
    ListedPick(acc, '1', false);
    var picks := Picks(acc, ["n1", "ex"], false);
    assert picks[0] == Number(1);
    assert ChooseTokens(acc, ["n1", "ex"]) == ChooseFrom(|acc|, ["n1", "ex"], picks, 1, [1]);
  }

  /** As written, an out-of-range listed number is silently replaced by the sentinel: with
      fewer accessions than the digit after `n` (`n5` with one accession), the line picks
      10000000, a number no accession has; corrected, it asks again. */
  lemma SentinelSlipsThrough(acc: seq<string>, c: char)
    requires '1' <= c <= '9' && |acc| < c as int - '0' as int
    ensures ChooseTokens(acc, [['n', c]]) == Picked([Sentinel])
    ensures ChooseTokensCorrected(acc, [['n', c]]) == NeedsPrompt(['n', c])
  {
    var tokens := [['n', c]];
    ListedPick(acc, c, false);
    ListedPick(acc, c, true);
    assert tokens[0] != "ex";
    var picks := Picks(acc, tokens, false);
    assert picks[0] == Number(Sentinel);
    assert [] + [Sentinel] == [Sentinel];
    assert ChooseTokens(acc, tokens) == ChooseFrom(|acc|, tokens, picks, 1, [Sentinel]);
  }

  /** `n` followed by one digit names that listed number. */
  lemma ListedPick(acc: seq<string>, c: char, corrected: bool)
    requires '0' <= c <= '9'
    ensures var v := c as int - '0' as int;
      TokenPick(acc, ['n', c], corrected)
      == if |acc| >= v then Number(v) else if corrected || |acc| >= Sentinel then Ask else Number(Sentinel)
  {
    assert ['n', c][1..] == [c];
    Text.ParseIntDigit(c);
  }

  /** A line holding one word other than `all` is that one token. */
  lemma TokensOfWord(acc: seq<string>, word: string)
    requires ' ' !in word && word != "all"
    ensures Tokens(acc, word) == [word]
  {
    Text.SplitHead(word, ' ');
  }

  /** A number one token picks is a position below the number of accessions (a search) or a
      listed number not above it, unless, as written, it is the sentinel. */
  lemma TokenPickRange(acc: seq<string>, num: string, corrected: bool)
    ensures TokenPick(acc, num, corrected).Number? ==>
      TokenPick(acc, num, corrected).n <= |acc| || (!corrected && TokenPick(acc, num, corrected).n == Sentinel)
  {
  }

  /** Corrected, every picked number is at most the number of accessions: a search yields a
      position below it and a listed number is kept only when it does not exceed it. */
  lemma CorrectedNumbersInRange(acc: seq<string>, tokens: seq<string>)
    ensures var r := ChooseTokensCorrected(acc, tokens);
      r.Picked? ==> forall x :: x in r.nums ==> x <= |acc|
  {
    ChooseMeaning(acc, tokens, true);
    var r := ChooseTokensCorrected(acc, tokens);
    if r.Picked? {
      forall x | x in r.nums ensures x <= |acc| {
        var k :| 0 <= k < |r.nums| && r.nums[k] == x;
        TokenPickRange(acc, tokens[k], true);
      }
    }
  }

  /** As written, a picked number beyond the accessions can only be the sentinel. */
  lemma AsWrittenNumbersInRangeOrSentinel(acc: seq<string>, tokens: seq<string>)
    ensures var r := ChooseTokens(acc, tokens);
      r.Picked? ==> forall x :: x in r.nums ==> x <= |acc| || x == Sentinel
  {
    ChooseMeaning(acc, tokens, false);
    var r := ChooseTokens(acc, tokens);
    if r.Picked? {
      forall x | x in r.nums ensures x <= |acc| || x == Sentinel {
        var k :| 0 <= k < |r.nums| && r.nums[k] == x;
        TokenPickRange(acc, tokens[k], false);
      }
    }
  }
}
