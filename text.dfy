/** The parts of Python's `str` behaviour the scripts rely on, over `string` = `seq<char>`. */
module Text {
  import opened Common

  /** The characters `str.isspace()` accepts: the separators of `str.split()` without argument. */
  predicate IsSpace(c: char) {
    c == ' ' || '\t' <= c <= '\r' || '\U{1C}' <= c <= '\U{1F}' || c == '\U{85}' || c == '\U{A0}'
    || c == '\U{1680}' || '\U{2000}' <= c <= '\U{200A}' || c == '\U{2028}' || c == '\U{2029}'
    || c == '\U{202F}' || c == '\U{205F}' || c == '\U{3000}'
  }

  /** The line boundaries of `str.splitlines()` (`\r\n` counts as one boundary). */
  predicate IsLineBreak(c: char) {
    c == '\n' || c == '\r' || c == '\U{0B}' || c == '\U{0C}' || '\U{1C}' <= c <= '\U{1E}'
    || c == '\U{85}' || c == '\U{2028}' || c == '\U{2029}'
  }

  predicate NoBreak(s: string) {
    forall i :: 0 <= i < |s| ==> !IsLineBreak(s[i])
  }

  predicate NoSpace(s: string) {
    forall i :: 0 <= i < |s| ==> !IsSpace(s[i])
  }

  /** Python's `substring in text`. */
  predicate Contains(text: string, substring: string)
    decreases |text|
  {
    substring <= text || (|text| > 0 && Contains(text[1..], substring))
  }

  /** `s[1:]`: all but the first character; empty stays empty. */
  function DropFirst(s: string): (r: string)
    ensures |s| > 0 ==> [s[0]] + r == s
    ensures |s| == 0 ==> r == ""
  {
    if |s| > 0 then s[1..] else ""
  }

  // ---------------------------------------------------------------- str.split(sep)

  /** Index of the first `c` in `s`, or `|s|` when `c` does not occur. */
  function IndexOf(s: string, c: char): (k: nat)
    ensures k <= |s|
    ensures k < |s| ==> s[k] == c
    ensures forall i :: 0 <= i < k ==> s[i] != c
  {
    if s == "" then 0 else if s[0] == c then 0 else 1 + IndexOf(s[1..], c)
  }

  /** How often `c` occurs in `s`. */
  function Occurrences(s: string, c: char): nat {
    if s == "" then 0 else (if s[0] == c then 1 else 0) + Occurrences(s[1..], c)
  }

  /** `sep.join(parts)` for a one-character separator. */
  function Join(sep: char, parts: seq<string>): string {
    if parts == [] then "" else if |parts| == 1 then parts[0] else parts[0] + [sep] + Join(sep, parts[1..])
  }

  lemma {:induction false} OccurrencesAtFirst(s: string, c: char, k: nat)
    requires k < |s| && s[k] == c
    requires forall i :: 0 <= i < k ==> s[i] != c
    ensures Occurrences(s, c) == 1 + Occurrences(s[k + 1..], c)
  {
    if k > 0 {
      OccurrencesAtFirst(s[1..], c, k - 1);
      assert s[1..][k..] == s[k + 1..];
    }
  }

  lemma {:induction false} NoOccurrences(s: string, c: char)
    requires forall i :: 0 <= i < |s| ==> s[i] != c
    ensures Occurrences(s, c) == 0
  {
    if s != "" {
      NoOccurrences(s[1..], c);
    }
  }

  /** `s.split(sep)`: one piece more than there are separators, none containing one, and joining
      the pieces back with `sep` gives `s`. */
  function Split(s: string, sep: char): (parts: seq<string>)
    ensures |parts| == Occurrences(s, sep) + 1
    ensures forall i :: 0 <= i < |parts| ==> sep !in parts[i]
    ensures Join(sep, parts) == s
    decreases |s|
  {
    var k := IndexOf(s, sep);
    if k == |s| then
      NoOccurrences(s, sep);
      [s]
    else
      var rest := Split(s[k + 1..], sep);
      OccurrencesAtFirst(s, sep, k);
      assert ([s[..k]] + rest)[1..] == rest;
      assert s[..k] + [sep] + s[k + 1..] == s;
      [s[..k]] + rest
  }

  /** The first piece of `s.split(sep)` is the text before the first separator, and the other
      pieces are those of the text after it. */
  lemma SplitHead(s: string, sep: char)
    ensures Split(s, sep)[0] == s[..IndexOf(s, sep)]
    ensures IndexOf(s, sep) < |s| ==> Split(s, sep)[1..] == Split(s[IndexOf(s, sep) + 1..], sep)
    ensures IndexOf(s, sep) == |s| ==> Split(s, sep) == [s]
  {
  }

  // ---------------------------------------------------------------- str.split()[0]

  /** Number of leading whitespace characters of `s`. */
  function SkipSpaces(s: string): (k: nat)
    ensures k <= |s|
    ensures forall i :: 0 <= i < k ==> IsSpace(s[i])
    ensures k < |s| ==> !IsSpace(s[k])
  {
    if s == "" || !IsSpace(s[0]) then 0 else 1 + SkipSpaces(s[1..])
  }

  /** Index of the first whitespace character of `s` at or after `from`, or `|s|`. */
  function SpaceFrom(s: string, from: nat): (k: nat)
    requires from <= |s|
    ensures from <= k <= |s|
    ensures forall i :: from <= i < k ==> !IsSpace(s[i])
    ensures k < |s| ==> IsSpace(s[k])
    decreases |s| - from
  {
    if from == |s| || IsSpace(s[from]) then from else SpaceFrom(s, from + 1)
  }

  /** `s.split()[0]`: the first maximal run of non-whitespace characters; `None` where Python
      raises IndexError because `s` is empty or all whitespace. */
  function FirstToken(s: string): (t: Option<string>)
    ensures t.None? <==> forall i :: 0 <= i < |s| ==> IsSpace(s[i])
    ensures t.Some? ==> t.value != "" && NoSpace(t.value)
    ensures t.Some? ==> var a := SkipSpaces(s);
      a + |t.value| <= |s| && s[a..a + |t.value|] == t.value && (a + |t.value| == |s| || IsSpace(s[a + |t.value|]))
  {
    var a := SkipSpaces(s);
    if a == |s| then None else Some(s[a..SpaceFrom(s, a)])
  }

  // ---------------------------------------------------------------- str.splitlines()

  /** Index of the first line boundary in `s`, or `|s|`. */
  function LineEnd(s: string): (k: nat)
    ensures k <= |s|
    ensures forall i :: 0 <= i < k ==> !IsLineBreak(s[i])
    ensures k < |s| ==> IsLineBreak(s[k])
  {
    if s == "" || IsLineBreak(s[0]) then 0 else 1 + LineEnd(s[1..])
  }

  /** `s.splitlines()`: the text between line boundaries, without them, and no final empty line
      after a trailing boundary. */
  function SplitLines(s: string): (lines: seq<string>)
    ensures forall i :: 0 <= i < |lines| ==> NoBreak(lines[i])
    ensures s != "" <==> lines != []
    decreases |s|
  {
    if s == "" then []
    else
      var k := LineEnd(s);
      if k == |s| then [s]
      else
        var next := if s[k] == '\r' && k + 1 < |s| && s[k + 1] == '\n' then k + 2 else k + 1;
        [s[..k]] + SplitLines(s[next..])
  }

  /** `"".join(parts)`, which is also what `f.writelines(parts)` writes. */
  function Concat(parts: seq<string>): string {
    if parts == [] then "" else parts[0] + Concat(parts[1..])
  }

  lemma {:induction false} ConcatAppend(a: seq<string>, b: seq<string>)
    ensures Concat(a + b) == Concat(a) + Concat(b)
  {
    if a == [] {
      assert a + b == b;
    } else {
      assert (a + b)[1..] == a[1..] + b;
      ConcatAppend(a[1..], b);
    }
  }

  /** Writing one more piece extends what was written by that piece. */
  lemma ConcatPrefixStep(parts: seq<string>, i: nat)
    requires i < |parts|
    ensures Concat(parts[..i + 1]) == Concat(parts[..i]) + parts[i]
  {
    assert parts[..i + 1] == parts[..i] + [parts[i]];
    ConcatAppend(parts[..i], [parts[i]]);
    assert Concat([parts[i]]) == parts[i];
  }

  /** `[item + "\n" for item in items]`. */
  function Terminated(items: seq<string>): (r: seq<string>)
    ensures |r| == |items|
    ensures forall i :: 0 <= i < |items| ==> r[i] == items[i] + "\n"
  {
    seq(|items|, i requires 0 <= i < |items| => items[i] + "\n")
  }

  /** A one-line text without boundary splits to itself. */
  lemma SplitLinesSingle(t: string)
    requires t != "" && NoBreak(t)
    ensures SplitLines(t) == [t]
  {
  }

  /** A boundary-free line followed by "\n" splits off as one line. */
  lemma SplitLinesCons(line: string, rest: string)
    requires NoBreak(line)
    ensures SplitLines(line + "\n" + rest) == [line] + SplitLines(rest)
  {
    var s := line + "\n" + rest;
    assert s[|line|] == '\n';
    assert LineEnd(s) == |line|;
    assert s[..|line|] == line;
    assert s[|line| + 1..] == rest;
  }

  lemma ConcatTerminatedCons(items: seq<string>)
    requires items != []
    ensures Concat(Terminated(items)) == items[0] + "\n" + Concat(Terminated(items[1..]))
  {
    assert Terminated(items)[1..] == Terminated(items[1..]);
  }

  /** Writing `items` one per line (each followed by "\n") and then `tail` splits back into the
      items followed by the lines of `tail`. */
  lemma {:induction false} SplitLinesOfTerminated(items: seq<string>, tail: string)
    requires forall i :: 0 <= i < |items| ==> NoBreak(items[i])
    ensures SplitLines(Concat(Terminated(items)) + tail) == items + SplitLines(tail)
  {
    if items != [] {
      calc {
        SplitLines(Concat(Terminated(items)) + tail);
        { SplitLinesOfTerminatedCons(items, tail); }
        [items[0]] + SplitLines(Concat(Terminated(items[1..])) + tail);
        { SplitLinesOfTerminated(items[1..], tail); }
        [items[0]] + (items[1..] + SplitLines(tail));
        { assert items == [items[0]] + items[1..]; }
        items + SplitLines(tail);
      }
    } else {
      assert Concat(Terminated(items)) + tail == tail;
    }
  }

  /** The first item written splits off as the first line. */
  lemma SplitLinesOfTerminatedCons(items: seq<string>, tail: string)
    requires items != [] && NoBreak(items[0])
    ensures SplitLines(Concat(Terminated(items)) + tail)
      == [items[0]] + SplitLines(Concat(Terminated(items[1..])) + tail)
  {
    var rest := Concat(Terminated(items[1..])) + tail;
    ConcatTerminatedCons(items);
    assert Concat(Terminated(items)) + tail == items[0] + "\n" + rest;
    SplitLinesCons(items[0], rest);
  }

  /** The text written for `items` ending in `last` (no newline after it) is the items joined
      with "\n". */
  lemma {:induction false} ConcatTerminatedIsJoin(items: seq<string>, last: string)
    ensures Concat(Terminated(items)) + last == Join('\n', items + [last])
  {
    if items == [] {
      assert items + [last] == [last];
    } else {
      assert Terminated(items)[1..] == Terminated(items[1..]);
      ConcatTerminatedIsJoin(items[1..], last);
      assert (items + [last])[1..] == items[1..] + [last];
    }
  }

  /** Every line boundary is whitespace, so a token never contains one. */
  lemma NoSpaceNoBreak(s: string)
    requires NoSpace(s)
    ensures NoBreak(s)
  {
  }

  /** A newline after the text does not change its first token. */
  lemma {:induction false} SkipSpacesIs(s: string, k: nat)
    requires k <= |s| && (forall i :: 0 <= i < k ==> IsSpace(s[i])) && (k < |s| ==> !IsSpace(s[k]))
    ensures SkipSpaces(s) == k
  {
    if k > 0 {
      SkipSpacesIs(s[1..], k - 1);
    }
  }

  lemma {:induction false} SpaceFromIs(s: string, from: nat, k: nat)
    requires from <= k <= |s| && (forall i :: from <= i < k ==> !IsSpace(s[i])) && (k < |s| ==> IsSpace(s[k]))
    ensures SpaceFrom(s, from) == k
    decreases k - from
  {
    if from < k {
      SpaceFromIs(s, from + 1, k);
    }
  }

  lemma FirstTokenIgnoresNewline(s: string)
    ensures FirstToken(s + "\n") == FirstToken(s)
  {
    var t := s + "\n";
    var a := SkipSpaces(s);
    if a < |s| {
      SkipSpacesIs(t, a);
      var e := SpaceFrom(s, a);
      SpaceFromIs(t, a, e);
      assert t[a..e] == s[a..e];
    } else {
      SkipSpacesIs(t, |t|);
    }
  }

  // ---------------------------------------------------------------- int()

  /** The code point of the zero of the run of ten decimal digits that `c` belongs to, or -1:
      the characters Python's `unicodedata.decimal` gives a value to (general category Nd,
      Unicode 15.0 as in Python 3.12), in runs of ten, 0 first. `int()` reads all of them.
      The runs are searched by halving the table of zeros. */
  function DigitZero(c: char): (z: int)
    ensures z >= 0 ==> z <= c as int <= z + 9
  {
    var n := c as int;
    if n < 0xAA50 then DigitZeroBelow(n) else DigitZeroAbove(n)
  }

  /** `DigitZero` for the code points below `0xAA50`. */
  function DigitZeroBelow(n: int): (z: int)
    ensures z >= 0 ==> z <= n <= z + 9
  {
    if n < 0x1040 then
      if n < 0x0B66 then
        if n < 0x0966 then
          if n < 0x06F0 then
            if n < 0x0660 then
              if 0x0030 <= n <= 0x0039 then 0x0030 else -1
            else
              if 0x0660 <= n <= 0x0669 then 0x0660 else -1
          else
            if n < 0x07C0 then
              if 0x06F0 <= n <= 0x06F9 then 0x06F0 else -1
            else
              if 0x07C0 <= n <= 0x07C9 then 0x07C0 else -1
        else
          if n < 0x0A66 then
            if n < 0x09E6 then
              if 0x0966 <= n <= 0x096F then 0x0966 else -1
            else
              if 0x09E6 <= n <= 0x09EF then 0x09E6 else -1
          else
            if n < 0x0AE6 then
              if 0x0A66 <= n <= 0x0A6F then 0x0A66 else -1
            else
              if 0x0AE6 <= n <= 0x0AEF then 0x0AE6 else -1
      else
        if n < 0x0D66 then
          if n < 0x0C66 then
            if n < 0x0BE6 then
              if 0x0B66 <= n <= 0x0B6F then 0x0B66 else -1
            else
              if 0x0BE6 <= n <= 0x0BEF then 0x0BE6 else -1
          else
            if n < 0x0CE6 then
              if 0x0C66 <= n <= 0x0C6F then 0x0C66 else -1
            else
              if 0x0CE6 <= n <= 0x0CEF then 0x0CE6 else -1
        else
          if n < 0x0E50 then
            if n < 0x0DE6 then
              if 0x0D66 <= n <= 0x0D6F then 0x0D66 else -1
            else
              if 0x0DE6 <= n <= 0x0DEF then 0x0DE6 else -1
          else
            if n < 0x0ED0 then
              if 0x0E50 <= n <= 0x0E59 then 0x0E50 else -1
            else
              if n < 0x0F20 then
                if 0x0ED0 <= n <= 0x0ED9 then 0x0ED0 else -1
              else
                if 0x0F20 <= n <= 0x0F29 then 0x0F20 else -1
    else
      if n < 0x1B50 then
        if n < 0x1946 then
          if n < 0x17E0 then
            if n < 0x1090 then
              if 0x1040 <= n <= 0x1049 then 0x1040 else -1
            else
              if 0x1090 <= n <= 0x1099 then 0x1090 else -1
          else
            if n < 0x1810 then
              if 0x17E0 <= n <= 0x17E9 then 0x17E0 else -1
            else
              if 0x1810 <= n <= 0x1819 then 0x1810 else -1
        else
          if n < 0x1A80 then
            if n < 0x19D0 then
              if 0x1946 <= n <= 0x194F then 0x1946 else -1
            else
              if 0x19D0 <= n <= 0x19D9 then 0x19D0 else -1
          else
            if n < 0x1A90 then
              if 0x1A80 <= n <= 0x1A89 then 0x1A80 else -1
            else
              if 0x1A90 <= n <= 0x1A99 then 0x1A90 else -1
      else
        if n < 0xA620 then
          if n < 0x1C40 then
            if n < 0x1BB0 then
              if 0x1B50 <= n <= 0x1B59 then 0x1B50 else -1
            else
              if 0x1BB0 <= n <= 0x1BB9 then 0x1BB0 else -1
          else
            if n < 0x1C50 then
              if 0x1C40 <= n <= 0x1C49 then 0x1C40 else -1
            else
              if 0x1C50 <= n <= 0x1C59 then 0x1C50 else -1
        else
          if n < 0xA900 then
            if n < 0xA8D0 then
              if 0xA620 <= n <= 0xA629 then 0xA620 else -1
            else
              if 0xA8D0 <= n <= 0xA8D9 then 0xA8D0 else -1
          else
            if n < 0xA9D0 then
              if 0xA900 <= n <= 0xA909 then 0xA900 else -1
            else
              if n < 0xA9F0 then
                if 0xA9D0 <= n <= 0xA9D9 then 0xA9D0 else -1
              else
                if 0xA9F0 <= n <= 0xA9F9 then 0xA9F0 else -1
  }

  /** `DigitZero` for the code points from `0xAA50` on. */
  function DigitZeroAbove(n: int): (z: int)
    ensures z >= 0 ==> z <= n <= z + 9
  {
    if n < 0x11C50 then
      if n < 0x111D0 then
        if n < 0x10D30 then
          if n < 0xFF10 then
            if n < 0xABF0 then
              if 0xAA50 <= n <= 0xAA59 then 0xAA50 else -1
            else
              if 0xABF0 <= n <= 0xABF9 then 0xABF0 else -1
          else
            if n < 0x104A0 then
              if 0xFF10 <= n <= 0xFF19 then 0xFF10 else -1
            else
              if 0x104A0 <= n <= 0x104A9 then 0x104A0 else -1
        else
          if n < 0x110F0 then
            if n < 0x11066 then
              if 0x10D30 <= n <= 0x10D39 then 0x10D30 else -1
            else
              if 0x11066 <= n <= 0x1106F then 0x11066 else -1
          else
            if n < 0x11136 then
              if 0x110F0 <= n <= 0x110F9 then 0x110F0 else -1
            else
              if 0x11136 <= n <= 0x1113F then 0x11136 else -1
      else
        if n < 0x11650 then
          if n < 0x11450 then
            if n < 0x112F0 then
              if 0x111D0 <= n <= 0x111D9 then 0x111D0 else -1
            else
              if 0x112F0 <= n <= 0x112F9 then 0x112F0 else -1
          else
            if n < 0x114D0 then
              if 0x11450 <= n <= 0x11459 then 0x11450 else -1
            else
              if 0x114D0 <= n <= 0x114D9 then 0x114D0 else -1
        else
          if n < 0x11730 then
            if n < 0x116C0 then
              if 0x11650 <= n <= 0x11659 then 0x11650 else -1
            else
              if 0x116C0 <= n <= 0x116C9 then 0x116C0 else -1
          else
            if n < 0x118E0 then
              if 0x11730 <= n <= 0x11739 then 0x11730 else -1
            else
              if n < 0x11950 then
                if 0x118E0 <= n <= 0x118E9 then 0x118E0 else -1
              else
                if 0x11950 <= n <= 0x11959 then 0x11950 else -1
    else
      if n < 0x1D7D8 then
        if n < 0x16A60 then
          if n < 0x11DA0 then
            if n < 0x11D50 then
              if 0x11C50 <= n <= 0x11C59 then 0x11C50 else -1
            else
              if 0x11D50 <= n <= 0x11D59 then 0x11D50 else -1
          else
            if n < 0x11F50 then
              if 0x11DA0 <= n <= 0x11DA9 then 0x11DA0 else -1
            else
              if 0x11F50 <= n <= 0x11F59 then 0x11F50 else -1
        else
          if n < 0x16B50 then
            if n < 0x16AC0 then
              if 0x16A60 <= n <= 0x16A69 then 0x16A60 else -1
            else
              if 0x16AC0 <= n <= 0x16AC9 then 0x16AC0 else -1
          else
            if n < 0x1D7CE then
              if 0x16B50 <= n <= 0x16B59 then 0x16B50 else -1
            else
              if 0x1D7CE <= n <= 0x1D7D7 then 0x1D7CE else -1
      else
        if n < 0x1E140 then
          if n < 0x1D7EC then
            if n < 0x1D7E2 then
              if 0x1D7D8 <= n <= 0x1D7E1 then 0x1D7D8 else -1
            else
              if 0x1D7E2 <= n <= 0x1D7EB then 0x1D7E2 else -1
          else
            if n < 0x1D7F6 then
              if 0x1D7EC <= n <= 0x1D7F5 then 0x1D7EC else -1
            else
              if 0x1D7F6 <= n <= 0x1D7FF then 0x1D7F6 else -1
        else
          if n < 0x1E4F0 then
            if n < 0x1E2F0 then
              if 0x1E140 <= n <= 0x1E149 then 0x1E140 else -1
            else
              if 0x1E2F0 <= n <= 0x1E2F9 then 0x1E2F0 else -1
          else
            if n < 0x1E950 then
              if 0x1E4F0 <= n <= 0x1E4F9 then 0x1E4F0 else -1
            else
              if n < 0x1FBF0 then
                if 0x1E950 <= n <= 0x1E959 then 0x1E950 else -1
              else
                if 0x1FBF0 <= n <= 0x1FBF9 then 0x1FBF0 else -1
  }

  predicate IsDigit(c: char) {
    DigitZero(c) >= 0
  }

  /** The value 0 to 9 of a decimal digit. */
  function DigitValue(c: char): (d: nat)
    requires IsDigit(c)
    ensures d <= 9
  {
    c as int - DigitZero(c)
  }

  /** No decimal digit is whitespace. */
  lemma DigitNotSpace(c: char)
    requires IsDigit(c)
    ensures !IsSpace(c) && !IntSpace(c) && c != '_' && c != '+' && c != '-'
  {
  }

  /** The digits `int()` accepts after the sign: decimal digits with single underscores
      between them, read from the right. */
  predicate Numeral(d: string)
    decreases |d|
  {
    && |d| > 0 && IsDigit(d[|d| - 1])
    && var init := d[..|d| - 1];
    || init == ""
    || (IsDigit(init[|init| - 1]) && Numeral(init))
    || (init[|init| - 1] == '_' && Numeral(init[..|init| - 1]))
  }

  /** The decimal value of the digits, underscores ignored. */
  function NumeralValue(d: string): nat
    requires Numeral(d)
    decreases |d|
  {
    var init := d[..|d| - 1];
    var last := DigitValue(d[|d| - 1]);
    if init == "" then last
    else if init[|init| - 1] == '_' then 10 * NumeralValue(init[..|init| - 1]) + last
    else 10 * NumeralValue(init) + last
  }

  /** The number of digits of a numeral, underscores not counted. */
  function DigitCount(d: string): nat
    requires Numeral(d)
    decreases |d|
  {
    var init := d[..|d| - 1];
    if init == "" then 1
    else if init[|init| - 1] == '_' then DigitCount(init[..|init| - 1]) + 1
    else DigitCount(init) + 1
  }

  /** Python's default limit on the digits `int()` converts from a decimal string
      (`sys.get_int_max_str_digits()`); a longer numeral raises ValueError. */
  const IntMaxStrDigits: nat := 4300

  /** A numeral starts with a digit. */
  lemma {:induction false} NumeralStart(d: string)
    requires Numeral(d)
    ensures IsDigit(d[0])
    decreases |d|
  {
    var init := d[..|d| - 1];
    if init != "" {
      if IsDigit(init[|init| - 1]) && Numeral(init) {
        NumeralStart(init);
        assert init[0] == d[0];
      } else {
        NumeralStart(init[..|init| - 1]);
        assert init[..|init| - 1][0] == d[0];
      }
    }
  }

  /** `s` as `int()` reads it: leading whitespace, an optional sign, the part meant as digits,
      and trailing whitespace. */
  datatype IntText = IntText(lead: string, sign: string, numeral: string, trail: string)

  /** The whitespace `int()` strips: CPython maps every non-ASCII `str.isspace` character to a
      space and then skips the ASCII space, `\t`, `\n`, `\v`, `\f` and `\r`. The ASCII
      separators `\x1c` to `\x1f`, which `str.isspace` accepts, are not stripped. */
  predicate IntSpace(c: char) {
    IsSpace(c) && !('\U{1C}' <= c <= '\U{1F}')
  }

  predicate AllIntSpace(s: string) {
    forall i :: 0 <= i < |s| ==> IntSpace(s[i])
  }

  /** Number of leading `int()` whitespace characters of `s`. */
  function SkipIntSpaces(s: string): (k: nat)
    ensures k <= |s|
    ensures forall i :: 0 <= i < k ==> IntSpace(s[i])
    ensures k < |s| ==> !IntSpace(s[k])
  {
    if s == "" || !IntSpace(s[0]) then 0 else 1 + SkipIntSpaces(s[1..])
  }

  lemma {:induction false} SkipIntSpacesIs(s: string, k: nat)
    requires k <= |s| && (forall i :: 0 <= i < k ==> IntSpace(s[i])) && (k < |s| ==> !IntSpace(s[k]))
    ensures SkipIntSpaces(s) == k
  {
    if k > 0 {
      SkipIntSpacesIs(s[1..], k - 1);
    }
  }

  /** What `int()` takes for a sign: nothing, `+` or `-`. */
  predicate IsSign(t: string) {
    t == "" || t == "+" || t == "-"
  }

  /** The start of the `int()` whitespace that ends `s`. */
  function TrailStart(s: string): (e: nat)
    ensures e <= |s| && AllIntSpace(s[e..]) && (e > 0 ==> !IntSpace(s[e - 1]))
  {
    if s == "" || !IntSpace(s[|s| - 1]) then |s|
    else
      var e := TrailStart(s[..|s| - 1]);
      assert s[e..] == s[..|s| - 1][e..] + [s[|s| - 1]];
      e
  }

  lemma {:induction false} TrailStartIs(s: string, e: nat)
    requires e <= |s| && AllIntSpace(s[e..]) && (e > 0 ==> !IntSpace(s[e - 1]))
    ensures TrailStart(s) == e
  {
    if s != "" && IntSpace(s[|s| - 1]) {
      assert e < |s| by {
        if e == |s| { assert !IntSpace(s[e - 1]); }
      }
      assert s[..|s| - 1][e..] == s[e..|s| - 1];
      TrailStartIs(s[..|s| - 1], e);
    }
  }

  lemma Regroup(w: string, x: string, y: string, z: string)
    ensures w + x + y + z == w + (x + y + z)
  {
  }

  /** The whitespace around `s` stripped, and a leading `+` or `-` split off. */
  function Pieces(s: string): (p: IntText)
    ensures AllIntSpace(p.lead)
    ensures AllIntSpace(p.trail)
    ensures IsSign(p.sign)
  {
    var a := SkipIntSpaces(s);
    assert AllIntSpace(s[..a]) by {
      forall i | 0 <= i < a ensures IntSpace(s[..a][i]) { assert s[..a][i] == s[i]; }
    }
    SplitSign(s[..a], s[a..])
  }

  /** The pieces put back together give `s`. */
  lemma PiecesCover(s: string)
    ensures var p := Pieces(s); p.lead + p.sign + p.numeral + p.trail == s
  {
    var a := SkipIntSpaces(s);
    SplitSignCover(s[..a], s[a..]);
    var p := Pieces(s);
    Regroup(p.lead, p.sign, p.numeral, p.trail);
    assert s[..a] + s[a..] == s;
  }

  lemma SplitSignCover(lead: string, rest: string)
    ensures var p := SplitSign(lead, rest); p.sign + p.numeral + p.trail == rest
  {
    var e := TrailStart(rest);
    var p := SplitSign(lead, rest);
    assert p.sign + p.numeral == rest[..e];
  }

  /** `rest`, which follows the leading whitespace `lead`, cut into sign, numeral and
      trailing whitespace. */
  function SplitSign(lead: string, rest: string): (p: IntText)
    ensures p.lead == lead && AllIntSpace(p.trail) && IsSign(p.sign)
  {
    var e := TrailStart(rest);
    var k := if e > 0 && (rest[0] == '+' || rest[0] == '-') then 1 else 0;
    assert IsSign(rest[..k]) by {
      if k == 1 { assert rest[..k] == [rest[0]]; } else { assert rest[..k] == ""; }
    }
    IntText(lead, rest[..k], rest[k..e], rest[e..])
  }

  /** `v` negated under a `-` sign. */
  function Signed(sign: string, v: nat): int {
    if sign == "-" then -(v as int) else v
  }

  /** `int(s)`: `None` where Python raises ValueError. */
  function ParseInt(s: string): (r: Option<int>)
    ensures var p := Pieces(s);
      && (r.Some? <==> Numeral(p.numeral) && DigitCount(p.numeral) <= IntMaxStrDigits)
      && (r.Some? ==> r.value == Signed(p.sign, NumeralValue(p.numeral)))
  {
    var p := Pieces(s);
    if !Numeral(p.numeral) || DigitCount(p.numeral) > IntMaxStrDigits then None
    else Some(Signed(p.sign, NumeralValue(p.numeral)))
  }

  /** Whitespace, an optional sign, a numeral and whitespace are read as the signed value of
      the numeral, or refused when it has more digits than the limit, however the whitespace
      and the sign are chosen; with `Pieces` this says that `int()` succeeds on exactly these
      texts. */
  lemma ParseIntAccepts(lead: string, sign: string, numeral: string, trail: string)
    requires AllIntSpace(lead) && AllIntSpace(trail) && IsSign(sign) && Numeral(numeral)
    ensures ParseInt(lead + sign + numeral + trail)
      == if DigitCount(numeral) <= IntMaxStrDigits then Some(Signed(sign, NumeralValue(numeral))) else None
  {
    var s := lead + sign + numeral + trail;
    var rest := sign + numeral + trail;
    NumeralStart(numeral);
    DigitNotSpace(numeral[0]);
    Regroup(lead, sign, numeral, trail);
    assert s[..|lead|] == lead && s[|lead|..] == rest;
    assert s[|lead|] == rest[0] == if sign == "" then numeral[0] else sign[0];
    SkipIntSpacesIs(s, |lead|);
    SplitSignIs(lead, sign, numeral, trail);
  }

  /** Sign and trailing whitespace are told apart from a numeral by its first and last digits. */
  lemma SplitSignIs(lead: string, sign: string, numeral: string, trail: string)
    requires AllIntSpace(trail) && IsSign(sign) && Numeral(numeral)
    ensures SplitSign(lead, sign + numeral + trail) == IntText(lead, sign, numeral, trail)
  {
    var rest := sign + numeral + trail;
    var e := |sign| + |numeral|;
    NumeralEndsBody(sign, numeral, trail);
    var k := if e > 0 && (rest[0] == '+' || rest[0] == '-') then 1 else 0;
    assert k == |sign| by {
      if sign == "" {
        NumeralStart(numeral);
        DigitNotSpace(numeral[0]);
        assert rest[0] == numeral[0];
      } else {
        assert |sign| == 1 && rest[0] == sign[0];
      }
    }
    assert rest[..k] == sign && rest[k..e] == numeral && rest[e..] == trail;
  }

  /** The trailing whitespace starts right after the numeral's last digit. */
  lemma NumeralEndsBody(sign: string, numeral: string, trail: string)
    requires AllIntSpace(trail) && Numeral(numeral)
    ensures TrailStart(sign + numeral + trail) == |sign| + |numeral|
  {
    var rest := sign + numeral + trail;
    var e := |sign| + |numeral|;
    DigitNotSpace(numeral[|numeral| - 1]);
    assert rest[e - 1] == numeral[|numeral| - 1];
    assert rest[e..] == trail;
    TrailStartIs(rest, e);
  }

  /** A single ASCII digit reads as its value. */
  lemma ParseIntDigit(c: char)
    requires '0' <= c <= '9'
    ensures ParseInt([c]) == Some(c as int - '0' as int)
  {
    var d := [c];
    assert Numeral(d) && NumeralValue(d) == c as int - '0' as int && DigitCount(d) == 1;
    assert "" + "" + d + "" == d;
    ParseIntAccepts("", "", d, "");
  }

  /** `int()` does not strip the separators `\x1c` to `\x1f` that `str.isspace` accepts: a
      numeral followed by one of them is refused. */
  lemma ParseIntKeepsSeparators(numeral: string, c: char)
    requires Numeral(numeral) && '\U{1C}' <= c <= '\U{1F}'
    ensures ParseInt(numeral + [c]) == None
  {
    var s := numeral + [c];
    assert !IntSpace(c) && !IsDigit(c);
    NumeralStart(numeral);
    DigitNotSpace(numeral[0]);
    assert s[0] == numeral[0];
    assert SkipIntSpaces(s) == 0 by {
      SkipIntSpacesIs(s, 0);
    }
    assert TrailStart(s) == |s| by {
      TrailStartIs(s, |s|);
    }
    assert s[..0] == "" && s[0..] == s;
    assert Pieces(s).numeral == s;
  }
}
